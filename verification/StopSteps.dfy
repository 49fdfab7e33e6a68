/** Stop requests against registrations on other threads (ruvia-core/src/stop_token.cpp,
    ruvia-core/include/ruvia/core/stop_token.h). Every step is one critical section of the
    stop state or one atomic operation on a registration's phase; any number of threads
    interleave freely. Each use of a registration has a node number of its own. */
module StopSteps {
  import opened Sequences
  import opened Wrappers

  datatype Phase = Registering | Registered | ResetPending | Resetting(thread: nat) | Idle

  /** `popped` and `inlined` say how its callback came to run; `waiting` is the epoch a blocked unlink saw;
      `gone` means that its unlink returned, and `self` that this happened inside its own run. */
  datatype Node = Node(
    phase: Phase, linked: bool, refused: bool, popped: bool, inlined: bool, invoked: nat,
    waiting: Option<nat>, gone: bool, self: bool)

  /** The one thread whose stop request counts. */
  datatype Requester =
    | Nobody
    | Invoking(thread: nat, node: nat)      // popped, the mutex released, the callback not entered
    | InCallback(thread: nat, node: nat)
    | Finished(thread: nat)

  datatype State = State(
    requested: bool, list: seq<nat>, requester: Requester, awaited: bool, epoch: nat, nodes: seq<Node>)

  datatype Step =
    | Register
    | Link(id: nat)
    | Withdraw(id: nat)             // the rest of register_callback after a refused link
    | Reset(id: nat, thread: nat)   // the phase change of reset()
    | Unlink(id: nat)
    | Wake(id: nat)
    | Request(thread: nat)
    | Invoke
    | Return                        // the callback returned; on to the next node

  const NEW_NODE := Node(Registering, false, false, false, false, 0, None, false, false)

  predicate Running(s: State, id: nat) {
    (s.requester.Invoking? || s.requester.InCallback?) && s.requester.node == id
  }

  /** A thread inside reset(), or between a pop and its callback, does nothing else. */
  ghost predicate Busy(s: State, thread: nat) {
    || (s.requester.Invoking? && s.requester.thread == thread)
    || exists id :: 0 <= id < |s.nodes| && s.nodes[id].phase == Resetting(thread)
  }

  ghost predicate Enabled(s: State, step: Step) {
    match step
    case Register => true
    case Link(id) =>
      id < |s.nodes| && (s.nodes[id].phase == Registering || s.nodes[id].phase == ResetPending) && !s.nodes[id].refused
    case Withdraw(id) => id < |s.nodes| && s.nodes[id].refused && s.nodes[id].phase != Idle
    case Reset(id, thread) => id < |s.nodes| && !Busy(s, thread)
    case Unlink(id) => id < |s.nodes| && s.nodes[id].phase.Resetting? && s.nodes[id].waiting == None
    case Wake(id) => id < |s.nodes| && s.nodes[id].waiting.Some? && s.nodes[id].waiting.value != s.epoch
    case Request(thread) => !Busy(s, thread)
    case Invoke => s.requester.Invoking?
    case Return => s.requester.InCallback? && !Busy(s, s.requester.thread)
  }

  function At(s: State, id: nat): Node {
    if id < |s.nodes| then s.nodes[id] else NEW_NODE
  }

  function Put(s: State, id: nat, n: Node): State {
    if id < |s.nodes| then s.(nodes := s.nodes[id := n]) else s
  }

  /** register_callback up to the creation of the node; a stop that was requested already runs the callback here. */
  function ApplyRegister(s: State): State {
    s.(nodes := s.nodes + [if s.requested then NEW_NODE.(phase := Idle, inlined := true, invoked := 1, gone := true)
                           else NEW_NODE])
  }

  function ApplyLink(s: State, id: nat): State {
    var n := At(s, id);
    if s.requested || n.phase == ResetPending then Put(s, id, n.(refused := true))
    else Put(s, id, n.(phase := Registered, linked := true)).(list := [id] + s.list)
  }

  function ApplyWithdraw(s: State, id: nat): State {
    var n := At(s, id);
    Put(s, id, if n.phase == ResetPending then n.(phase := Idle, gone := true)
               else n.(phase := Idle, gone := true, inlined := true, invoked := n.invoked + 1))
  }

  function ApplyReset(s: State, id: nat, thread: nat): State {
    var n := At(s, id);
    if n.phase == Registering then Put(s, id, n.(phase := ResetPending))
    else if n.phase == Registered then Put(s, id, n.(phase := Resetting(thread)))
    else s
  }

  /** What unlink does each time it holds the mutex and the node is not linked. */
  function Await(s: State, id: nat): State {
    Put(s, id, At(s, id).(waiting := Some(s.epoch))).(awaited := true)
  }

  function Retire(s: State, id: nat): State {
    Put(s, id, At(s, id).(phase := Idle, gone := true, waiting := None))
  }

  function ApplyUnlink(s: State, id: nat): State {
    var n := At(s, id);
    if n.linked then
      Put(s, id, n.(phase := Idle, gone := true, linked := false)).(list := Without(s.list, id))
    else if !Running(s, id) then Retire(s, id)
    else if n.phase == Resetting(s.requester.thread) then
      Put(s, id, n.(phase := Idle, gone := true, self := true))
    else Await(s, id)
  }

  function ApplyWake(s: State, id: nat): State {
    if Running(s, id) then Await(s, id) else Retire(s, id)
  }

  /** The head of the loop in request_stop. */
  function PopNext(s: State, thread: nat): State {
    if s.list == [] then s.(requester := Finished(thread))
    else
      var id := s.list[0];
      Put(s, id, At(s, id).(linked := false, popped := true)).(
      list := s.list[1..], requester := Invoking(thread, id))
  }

  function ApplyRequest(s: State, thread: nat): State {
    if s.requested then s else PopNext(s.(requested := true), thread)
  }

  function ApplyInvoke(s: State): State {
    if !s.requester.Invoking? then s
    else
      var id := s.requester.node;
      Put(s, id, At(s, id).(invoked := At(s, id).invoked + 1)).(requester := InCallback(s.requester.thread, id))
  }

  function ApplyReturn(s: State): State {
    if !s.requester.InCallback? then s
    else PopNext(s.(awaited := false, epoch := if s.awaited then s.epoch + 1 else s.epoch), s.requester.thread)
  }

  function Apply(s: State, step: Step): State {
    match step
    case Register => ApplyRegister(s)
    case Link(id) => ApplyLink(s, id)
    case Withdraw(id) => ApplyWithdraw(s, id)
    case Reset(id, thread) => ApplyReset(s, id, thread)
    case Unlink(id) => ApplyUnlink(s, id)
    case Wake(id) => ApplyWake(s, id)
    case Request(thread) => ApplyRequest(s, thread)
    case Invoke => ApplyInvoke(s)
    case Return => ApplyReturn(s)
  }

  const INITIAL := State(false, [], Nobody, false, 0, [])

  // ----- what every run keeps

  /** How far the use of a registration got. */
  ghost predicate NodeOk(n: Node) {
    && (n.linked ==> n.phase == Registered || n.phase.Resetting?)
    && (n.linked ==> !n.popped && !n.gone && n.waiting == None)
    && (n.popped ==> !n.linked && !n.inlined && !n.refused && (n.phase == Registered || n.phase.Resetting? || n.gone))
    && (n.inlined ==> n.gone && n.invoked == 1)
    && (!n.popped && !n.inlined ==> n.invoked == 0)
    && n.invoked <= 1
    && (n.gone <==> n.phase == Idle)
    && (n.refused ==> n.phase == Registering || n.phase == ResetPending || n.gone)
    && ((n.phase == Registered || n.phase.Resetting?) ==> n.linked || n.popped)
    && (n.waiting.Some? ==> n.phase.Resetting? && n.popped)
    && (n.self ==> n.gone && n.popped)
  }

  /** The requester and one node: it is in its callback, or about to enter it while it cannot be gone. */
  ghost predicate RunOk(n: Node, running: bool, requester: Requester) {
    && (running ==> n.popped)
    && (n.popped && !(running && requester.Invoking?) ==> n.invoked == 1)
    && (running && requester.Invoking? ==> n.invoked == 0 && !n.gone)
    && (running && n.gone ==> n.self)
  }

  /** A blocked unlink is on another thread, and is woken by the return of the callback it waits for. */
  ghost predicate WaitOk(n: Node, running: bool, requester: Requester, awaited: bool, epoch: nat) {
    n.waiting.Some? ==>
      && n.waiting.value <= epoch
      && (n.waiting.value == epoch <==> running)
      && (running ==> awaited)
      && (requester.Invoking? || requester.InCallback? || requester.Finished?)
      && n.phase != Resetting(requester.thread)
  }

  ghost predicate ListOk(s: State) {
    && Distinct(s.list)
    && (forall id :: id in s.list ==> id < |s.nodes|)
    && (forall id :: 0 <= id < |s.nodes| ==> (s.nodes[id].linked <==> id in s.list))
  }

  ghost predicate RequesterOk(s: State) {
    && (s.requested <==> s.requester != Nobody)
    && (!s.requested ==> forall id :: 0 <= id < |s.nodes| ==> !s.nodes[id].popped)
    && (s.requester.Finished? ==> s.list == [])
    && (s.requester.Invoking? || s.requester.InCallback? ==> s.requester.node < |s.nodes|)
    && (s.awaited ==> s.requester.Invoking? || s.requester.InCallback?)
  }

  ghost predicate NodesOk(s: State) {
    forall id :: 0 <= id < |s.nodes| ==>
      && NodeOk(s.nodes[id]) && RunOk(s.nodes[id], Running(s, id), s.requester)
      && WaitOk(s.nodes[id], Running(s, id), s.requester, s.awaited, s.epoch)
  }

  /** The requester resets nothing while it is about to enter a callback, or once it waits for none. */
  ghost predicate ThreadsOk(s: State) {
    s.requester.Invoking? ==> forall id :: 0 <= id < |s.nodes| ==> s.nodes[id].phase != Resetting(s.requester.thread)
  }

  ghost predicate Inv(s: State) {
    ListOk(s) && RequesterOk(s) && NodesOk(s) && ThreadsOk(s)
  }

  lemma PopKeeps(s: State, thread: nat)
    requires ListOk(s) && s.requested && !s.awaited
    requires forall id :: 0 <= id < |s.nodes| ==>
               && s.nodes[id].phase != Resetting(thread)
               && NodeOk(s.nodes[id]) && RunOk(s.nodes[id], false, Finished(thread))
               && WaitOk(s.nodes[id], false, Finished(thread), false, s.epoch)
    ensures Inv(PopNext(s, thread))
  {
    if s.list != [] {
      assert s.list[0] in s.list;
      assert forall x :: x in s.list[1..] ==> x in s.list;
    }
  }

  lemma RegisterKeeps(s: State)
    requires Inv(s)
    ensures Inv(ApplyRegister(s))
  {
  }

  lemma LinkKeeps(s: State, id: nat)
    requires Inv(s) && Enabled(s, Link(id))
    ensures Inv(ApplyLink(s, id))
  {
  }

  lemma WithdrawKeeps(s: State, id: nat)
    requires Inv(s) && Enabled(s, Withdraw(id))
    ensures Inv(ApplyWithdraw(s, id))
  {
  }

  lemma ResetKeeps(s: State, id: nat, thread: nat)
    requires Inv(s) && Enabled(s, Reset(id, thread))
    ensures Inv(ApplyReset(s, id, thread))
  {
  }

  lemma UnlinkLinkedKeeps(s: State, id: nat)
    requires Inv(s) && Enabled(s, Unlink(id)) && s.nodes[id].linked
    ensures Inv(ApplyUnlink(s, id))
  {
    WithoutIsDistinct(s.list, id);
  }

  lemma UnlinkKeeps(s: State, id: nat)
    requires Inv(s) && Enabled(s, Unlink(id))
    ensures Inv(ApplyUnlink(s, id))
  {
    if s.nodes[id].linked {
      UnlinkLinkedKeeps(s, id);
    }
  }

  lemma WakeKeeps(s: State, id: nat)
    requires Inv(s) && Enabled(s, Wake(id))
    ensures Inv(ApplyWake(s, id))
  {
  }

  lemma RequestKeeps(s: State, thread: nat)
    requires Inv(s) && Enabled(s, Request(thread))
    ensures Inv(ApplyRequest(s, thread))
  {
    if !s.requested {
      PopKeeps(s.(requested := true), thread);
    }
  }

  lemma CallbackKeeps(s: State)
    requires Inv(s)
    ensures Enabled(s, Invoke) ==> Inv(ApplyInvoke(s))
    ensures Enabled(s, Return) ==> Inv(ApplyReturn(s))
  {
    if Enabled(s, Return) {
      PopKeeps(s.(awaited := false, epoch := if s.awaited then s.epoch + 1 else s.epoch), s.requester.thread);
    }
  }

  lemma StepKeeps(s: State, step: Step)
    requires Inv(s) && Enabled(s, step)
    ensures Inv(Apply(s, step))
  {
    hide Inv;
    match step
    case Register => RegisterKeeps(s);
    case Link(id) => LinkKeeps(s, id);
    case Withdraw(id) => WithdrawKeeps(s, id);
    case Reset(id, thread) => ResetKeeps(s, id, thread);
    case Unlink(id) => UnlinkKeeps(s, id);
    case Wake(id) => WakeKeeps(s, id);
    case Request(thread) => RequestKeeps(s, thread);
    case Invoke => CallbackKeeps(s);
    case Return => CallbackKeeps(s);
  }

  // ----- whole runs

  ghost predicate Runs(s: State, steps: seq<Step>)
    decreases |steps|
  {
    steps == [] || (Enabled(s, steps[0]) && Runs(Apply(s, steps[0]), steps[1..]))
  }

  ghost function Reached(s: State, steps: seq<Step>): State
    decreases |steps|
  {
    if steps == [] then s else Reached(Apply(s, steps[0]), steps[1..])
  }

  lemma {:induction false} RunKeeps(s: State, steps: seq<Step>)
    requires Inv(s) && Runs(s, steps)
    ensures Inv(Reached(s, steps))
    decreases |steps|
  {
    if steps != [] {
      StepKeeps(s, steps[0]);
      RunKeeps(Apply(s, steps[0]), steps[1..]);
    }
  }

  /** Each callback runs at most once: inline when the stop came first, or because its node was popped. */
  lemma CallbackRunsOnce(steps: seq<Step>, id: nat)
    requires Runs(INITIAL, steps) && id < |Reached(INITIAL, steps).nodes|
    ensures var s := Reached(INITIAL, steps);
            var n := s.nodes[id];
            && n.invoked <= 1 && !(n.popped && n.inlined)
            && (n.invoked == 1 <==> n.inlined || (n.popped && !(s.requester.Invoking? && s.requester.node == id)))
            && (n.popped ==> id !in s.list)
  {
    RunKeeps(INITIAL, steps);
    assert INITIAL.nodes == [];
  }

  /** The requester never enters the callback of a node whose unlink returned. */
  lemma PoppedNodeIsAlive(steps: seq<Step>)
    requires Runs(INITIAL, steps) && Reached(INITIAL, steps).requester.Invoking?
    ensures var s := Reached(INITIAL, steps);
            s.requester.node < |s.nodes| && !s.nodes[s.requester.node].gone && s.nodes[s.requester.node].invoked == 0
  {
    RunKeeps(INITIAL, steps);
  }

  /** What no later step undoes. */
  ghost predicate Continues(a: Node, b: Node) {
    && (a.gone ==> b == a)
    && (a.popped ==> b.popped)
    && a.invoked <= b.invoked
  }

  ghost predicate StateContinues(s: State, t: State) {
    && |s.nodes| <= |t.nodes|
    && (forall id :: 0 <= id < |s.nodes| ==> Continues(s.nodes[id], t.nodes[id]))
    && (forall id :: 0 <= id < |s.nodes| && s.nodes[id].gone && Running(t, id) ==> Running(s, id))
  }

  lemma PopContinues(s: State, thread: nat)
    requires ListOk(s) && forall id :: 0 <= id < |s.nodes| ==> NodeOk(s.nodes[id])
    ensures |PopNext(s, thread).nodes| == |s.nodes|
    ensures forall id :: 0 <= id < |s.nodes| ==> Continues(s.nodes[id], PopNext(s, thread).nodes[id])
    ensures forall id :: 0 <= id < |s.nodes| && s.nodes[id].gone ==> !Running(PopNext(s, thread), id)
  {
    if s.list != [] {
      assert s.list[0] in s.list;
    }
  }

  lemma StepContinues(s: State, step: Step)
    requires Inv(s) && Enabled(s, step)
    ensures StateContinues(s, Apply(s, step))
  {
    hide ThreadsOk, WaitOk, PopNext, Busy;
    match step
    case Request(thread) => PopContinues(s.(requested := true), thread);
    case Return =>
      PopContinues(s.(awaited := false, epoch := if s.awaited then s.epoch + 1 else s.epoch), s.requester.thread);
    case _ => NodeStepContinues(s, step);
  }

  lemma NodeStepContinues(s: State, step: Step)
    requires Inv(s) && Enabled(s, step) && !step.Request? && !step.Return?
    ensures StateContinues(s, Apply(s, step))
  {
    hide ThreadsOk, WaitOk, Busy, ListOk, Apply;
    match step
    case Unlink(id) => UnlinkContinues(s, id);
    case Register => RegisterContinues(s);
    case Invoke => InvokeContinues(s);
    case _ => OneNodeContinues(s, step);
  }

  lemma RegisterContinues(s: State)
    requires Inv(s)
    ensures StateContinues(s, Apply(s, Register))
  {
    hide ThreadsOk, WaitOk, Busy, ListOk;
  }

  lemma InvokeContinues(s: State)
    requires Inv(s) && Enabled(s, Invoke)
    ensures StateContinues(s, Apply(s, Invoke))
  {
    hide ThreadsOk, WaitOk, Busy, ListOk;
  }

  lemma OneNodeContinues(s: State, step: Step)
    requires Inv(s) && Enabled(s, step) && (step.Link? || step.Withdraw? || step.Reset? || step.Wake?)
    ensures StateContinues(s, Apply(s, step))
  {
    hide ThreadsOk, WaitOk, Busy, ListOk;
  }

  lemma UnlinkContinues(s: State, id: nat)
    requires Inv(s) && Enabled(s, Unlink(id))
    ensures Apply(s, Unlink(id)) == ApplyUnlink(s, id) && StateContinues(s, ApplyUnlink(s, id))
  {
    hide ThreadsOk, WaitOk, RunOk, Busy, ListOk;
  }

  lemma {:induction false} RunContinues(s: State, steps: seq<Step>)
    requires Inv(s) && Runs(s, steps)
    ensures StateContinues(s, Reached(s, steps))
    decreases |steps|
  {
    if steps != [] {
      StepKeeps(s, steps[0]);
      StepContinues(s, steps[0]);
      RunContinues(Apply(s, steps[0]), steps[1..]);
    }
  }

  /** Once an unlink returned, the node is out of the list for good and its callback never starts; it can only be
      still running if the callback itself destroyed the node, on the requester's own thread. */
  lemma UnlinkIsFinal(before: seq<Step>, later: seq<Step>, id: nat)
    requires Runs(INITIAL, before) && Runs(Reached(INITIAL, before), later)
    requires id < |Reached(INITIAL, before).nodes| && Reached(INITIAL, before).nodes[id].gone
    ensures var s, t := Reached(INITIAL, before), Reached(Reached(INITIAL, before), later);
            && id < |t.nodes| && t.nodes[id] == s.nodes[id] && id !in t.list
            && (Running(t, id) ==> Running(s, id) && t.nodes[id].self && t.requester.InCallback?)
  {
    RunKeeps(INITIAL, before);
    RunKeeps(Reached(INITIAL, before), later);
    RunContinues(Reached(INITIAL, before), later);
    assert Continues(Reached(INITIAL, before).nodes[id], Reached(Reached(INITIAL, before), later).nodes[id]);
  }

  /** A callback whose unlink takes its node out of the list first is never invoked, by anybody, later. */
  lemma PopOrUnlink(steps: seq<Step>, id: nat)
    requires Runs(INITIAL, steps) && id < |Reached(INITIAL, steps).nodes|
    requires Reached(INITIAL, steps).nodes[id].linked && Enabled(Reached(INITIAL, steps), Unlink(id))
    ensures var s := Reached(INITIAL, steps);
            forall later :: Runs(Apply(s, Unlink(id)), later) ==>
              At(Reached(Apply(s, Unlink(id)), later), id).invoked == 0
  {
    var s := Reached(INITIAL, steps);
    RunKeeps(INITIAL, steps);
    StepKeeps(s, Unlink(id));
    var t := Apply(s, Unlink(id));
    forall later | Runs(t, later) ensures At(Reached(t, later), id).invoked == 0 {
      RunContinues(t, later);
      assert Continues(t.nodes[id], Reached(t, later).nodes[id]);
    }
  }

  /** Once the request is through, every callback still registered was invoked. */
  lemma StopReachesEverybody(steps: seq<Step>, id: nat)
    requires Runs(INITIAL, steps) && Reached(INITIAL, steps).requester.Finished?
    requires id < |Reached(INITIAL, steps).nodes|
    ensures var n := Reached(INITIAL, steps).nodes[id];
            && !n.linked && (n.popped ==> n.invoked == 1)
            && (n.phase == Registered ==> n.popped)
  {
    RunKeeps(INITIAL, steps);
  }

  /** Nobody has reset the registration; if it is over, its callback ran. */
  ghost predicate NotReset(n: Node) {
    (n.phase == Registering || n.phase == Registered || n.phase == Idle) && (n.gone ==> n.invoked == 1)
  }

  lemma StepResetsNobody(s: State, step: Step, id: nat)
    requires Inv(s) && Enabled(s, step) && NotReset(At(s, id)) && !(step.Reset? && step.id == id)
    ensures NotReset(At(Apply(s, step), id))
  {
    hide ThreadsOk, WaitOk, Busy;
    if id < |s.nodes| {
      assert NodeOk(s.nodes[id]) && RunOk(s.nodes[id], Running(s, id), s.requester);
    }
  }

  lemma {:induction false} RunResetsNobody(s: State, steps: seq<Step>, id: nat)
    requires Inv(s) && Runs(s, steps) && NotReset(At(s, id))
    requires forall k :: 0 <= k < |steps| ==> !(steps[k].Reset? && steps[k].id == id)
    ensures NotReset(At(Reached(s, steps), id))
    decreases |steps|
  {
    hide Inv, NotReset, At, Apply, Enabled;
    if steps != [] {
      StepKeeps(s, steps[0]);
      StepResetsNobody(s, steps[0], id);
      RunResetsNobody(Apply(s, steps[0]), steps[1..], id);
    }
  }

  /** Nobody is passed over: when the request is through, a callback that was registered and never reset has run,
      whether its registration came after the stop, was overtaken by it, or came before it. */
  lemma EveryCallbackRuns(steps: seq<Step>, id: nat)
    requires Runs(INITIAL, steps) && forall k :: 0 <= k < |steps| ==> !(steps[k].Reset? && steps[k].id == id)
    requires Reached(INITIAL, steps).requester.Finished? && id < |Reached(INITIAL, steps).nodes|
    ensures var n := Reached(INITIAL, steps).nodes[id];
            n.gone || n.phase == Registered ==> n.invoked == 1
  {
    hide Inv, Runs, Reached, Enabled;
    InitialHolds();
    RunKeeps(INITIAL, steps);
    RunResetsNobody(INITIAL, steps, id);
    if Reached(INITIAL, steps).nodes[id].phase == Registered {
      RegisteredHasRun(Reached(INITIAL, steps), id);
    }
  }

  lemma InitialHolds()
    ensures Inv(INITIAL) && INITIAL.nodes == []
  {
  }

  lemma RegisteredHasRun(s: State, id: nat)
    requires Inv(s) && s.requester.Finished? && id < |s.nodes| && s.nodes[id].phase == Registered
    ensures s.nodes[id].invoked == 1
  {
    assert NodeOk(s.nodes[id]) && RunOk(s.nodes[id], Running(s, id), s.requester);
  }

  /** The reset came before the link: such a callback never runs. */
  ghost predicate ResetFirst(n: Node) {
    (n.phase == ResetPending || n.gone) && n.invoked == 0 && !n.popped && !n.linked
  }

  lemma StepKeepsResetFirst(s: State, step: Step, id: nat)
    requires Inv(s) && Enabled(s, step) && id < |s.nodes| && ResetFirst(s.nodes[id])
    ensures id < |Apply(s, step).nodes| && ResetFirst(Apply(s, step).nodes[id])
  {
    hide ThreadsOk, WaitOk, Busy;
    assert NodeOk(s.nodes[id]) && RunOk(s.nodes[id], Running(s, id), s.requester);
  }

  lemma {:induction false} ResetBeforeLinkNeverRuns(s: State, later: seq<Step>, id: nat)
    requires Inv(s) && Runs(s, later) && id < |s.nodes| && ResetFirst(s.nodes[id])
    ensures id < |Reached(s, later).nodes| && Reached(s, later).nodes[id].invoked == 0
    decreases |later|
  {
    hide Inv, Apply, Enabled;
    if later != [] {
      StepKeeps(s, later[0]);
      StepKeepsResetFirst(s, later[0], id);
      ResetBeforeLinkNeverRuns(Apply(s, later[0]), later[1..], id);
    }
  }

  /** A reset that finds the registration still under way keeps its callback from ever running. */
  lemma PendingResetWins(steps: seq<Step>, id: nat, thread: nat, later: seq<Step>)
    requires Runs(INITIAL, steps) && Enabled(Reached(INITIAL, steps), Reset(id, thread))
    requires Reached(INITIAL, steps).nodes[id].phase == Registering
    requires Runs(Apply(Reached(INITIAL, steps), Reset(id, thread)), later)
    ensures At(Reached(Apply(Reached(INITIAL, steps), Reset(id, thread)), later), id).invoked == 0
  {
    hide Runs, Reached;
    var s := Reached(INITIAL, steps);
    InitialHolds();
    RunKeeps(INITIAL, steps);
    StepKeeps(s, Reset(id, thread));
    assert NodeOk(s.nodes[id]);
    ResetBeforeLinkNeverRuns(Apply(s, Reset(id, thread)), later, id);
  }

  /** No callback runs before the stop is requested. */
  lemma NobodyRunsBeforeStop(steps: seq<Step>, id: nat)
    requires Runs(INITIAL, steps) && id < |Reached(INITIAL, steps).nodes|
    requires forall k :: 0 <= k < |steps| ==> !steps[k].Request?
    ensures Reached(INITIAL, steps).nodes[id].invoked == 0
  {
    hide Inv, Runs, Reached;
    InitialHolds();
    NotRequestedStays(INITIAL, steps);
    NobodyRan(Reached(INITIAL, steps), id);
  }

  /** No inline run happened. */
  ghost predicate Silent(s: State) {
    && Inv(s) && !s.requested
    && (forall id :: 0 <= id < |s.nodes| ==> !s.nodes[id].inlined)
    && (forall id :: 0 <= id < |s.nodes| && s.nodes[id].refused ==> s.nodes[id].phase != Registering)
  }

  lemma NobodyRan(s: State, id: nat)
    requires Silent(s) && id < |s.nodes|
    ensures s.nodes[id].invoked == 0
  {
    assert NodeOk(s.nodes[id]) && !s.nodes[id].popped;
  }

  lemma SilentStep(s: State, step: Step)
    requires Silent(s) && Enabled(s, step) && !step.Request?
    ensures Silent(Apply(s, step))
  {
    hide ThreadsOk, WaitOk, Busy, ListOk;
    StepKeeps(s, step);
  }

  lemma {:induction false} NotRequestedStays(s: State, steps: seq<Step>)
    requires Runs(s, steps) && Silent(s)
    requires forall k :: 0 <= k < |steps| ==> !steps[k].Request?
    ensures Silent(Reached(s, steps))
    decreases |steps|
  {
    hide Silent, Apply, Enabled;
    if steps != [] {
      SilentStep(s, steps[0]);
      NotRequestedStays(Apply(s, steps[0]), steps[1..]);
    }
  }

  /** A registration that comes after the stop has run its callback when it returns; one that comes before is still
      to be linked. */
  lemma RegistrationAnswers(s: State)
    ensures var t, n := Apply(s, Register), At(Apply(s, Register), |s.nodes|);
            && |t.nodes| == |s.nodes| + 1 && t.list == s.list
            && (s.requested ==> n.gone && n.invoked == 1)
            && (!s.requested ==> n.invoked == 0 && Enabled(t, Link(|s.nodes|)))
  {
  }

  /** What a registration comes to: it is linked, in front, exactly if the stop and a reset are both still to come. */
  lemma LinkIffFirst(s: State, id: nat)
    requires Inv(s) && Enabled(s, Link(id))
    ensures var t := Apply(s, Link(id));
            if !s.requested && s.nodes[id].phase == Registering then
              t.list == [id] + s.list && t.nodes[id].phase == Registered && !t.nodes[id].refused
            else t.list == s.list && t.nodes[id].refused && Enabled(t, Withdraw(id))
  {
  }

  /** A reset always takes hold: of a registration that is linked or popped by way of unlink, of one under way by way of
      its refusal, and otherwise there is nothing left to reset, or another reset is at it. */
  lemma ResetTakesHold(s: State, id: nat, thread: nat)
    requires Inv(s) && Enabled(s, Reset(id, thread))
    ensures var n, t := s.nodes[id], Apply(s, Reset(id, thread));
            && (n.phase == Registered ==> Enabled(t, Unlink(id)) && t.nodes[id].phase == Resetting(thread))
            && (n.phase == Registering ==> t.nodes[id].phase == ResetPending)
            && (n.phase != Registered && n.phase != Registering ==> t == s)
  {
    assert NodeOk(s.nodes[id]);
  }

  /** An unlink waits exactly while the callback runs on another thread; otherwise it returns at once. */
  lemma UnlinkWaitsForOthers(steps: seq<Step>, id: nat)
    requires Runs(INITIAL, steps) && Enabled(Reached(INITIAL, steps), Unlink(id))
    ensures var s, t := Reached(INITIAL, steps), Apply(Reached(INITIAL, steps), Unlink(id));
            if Running(s, id) && s.nodes[id].phase != Resetting(s.requester.thread) then
              At(t, id).waiting == Some(s.epoch) && t.awaited && !At(t, id).gone
            else At(t, id).gone && At(t, id).waiting == None
  {
    hide Runs, Reached;
    InitialHolds();
    RunKeeps(INITIAL, steps);
    UnlinkAnswers(Reached(INITIAL, steps), id);
  }

  lemma UnlinkAnswers(s: State, id: nat)
    requires Inv(s) && Enabled(s, Unlink(id))
    ensures var t := Apply(s, Unlink(id));
            if Running(s, id) && s.nodes[id].phase != Resetting(s.requester.thread) then
              At(t, id).waiting == Some(s.epoch) && t.awaited && !At(t, id).gone
            else At(t, id).gone && At(t, id).waiting == None
  {
    hide ThreadsOk, ListOk;
    assert NodeOk(s.nodes[id]) && RunOk(s.nodes[id], Running(s, id), s.requester);
  }

  /** Unlinking a node from inside its own run returns at once. */
  lemma OwnRunNeverWaits(steps: seq<Step>, id: nat)
    requires Runs(INITIAL, steps) && Enabled(Reached(INITIAL, steps), Unlink(id))
    requires Reached(INITIAL, steps).requester.InCallback?
    requires Reached(INITIAL, steps).nodes[id].phase == Resetting(Reached(INITIAL, steps).requester.thread)
    ensures var n := At(Apply(Reached(INITIAL, steps), Unlink(id)), id);
            n.gone && n.waiting == None
  {
    RunKeeps(INITIAL, steps);
  }

  /** A blocked unlink waits for a callback that is running and that knows it is awaited. */
  lemma BlockedUnlinkIsAwaited(steps: seq<Step>, id: nat)
    requires Runs(INITIAL, steps) && id < |Reached(INITIAL, steps).nodes|
    ensures var s := Reached(INITIAL, steps);
            s.nodes[id].waiting.Some? ==>
              if Running(s, id) then s.awaited && !Enabled(s, Wake(id))
              else Enabled(s, Wake(id)) && At(Apply(s, Wake(id)), id).gone
  {
    RunKeeps(INITIAL, steps);
  }

  /** ... and the return of that callback lets it go: nobody stays blocked, whoever runs next. */
  lemma ReturnWakesEverybody(steps: seq<Step>, id: nat)
    requires Runs(INITIAL, steps) && Enabled(Reached(INITIAL, steps), Return)
    requires At(Reached(INITIAL, steps), id).waiting.Some?
    ensures var t := Apply(Reached(INITIAL, steps), Return);
            Enabled(t, Wake(id)) && At(Apply(t, Wake(id)), id).gone
  {
    var s := Reached(INITIAL, steps);
    RunKeeps(INITIAL, steps);
    StepKeeps(s, Return);
    if s.list != [] {
      assert s.list[0] in s.list;
    }
  }
}
