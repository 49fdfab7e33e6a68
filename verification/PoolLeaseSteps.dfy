/** What the pool lease scheduler promises over any run on its worker
    (ruvia-core/src/pool_lease_scheduler.cpp, pool_waiter_queue.h). Every step is one
    turn of the worker: an await expression, a release, a close, a timer, a stop
    callback, a posted cancellation, a resumption or a destruction. Acquires are
    numbered in creation order; a coroutine that a step resumes, now or later, is put
    on `resumptions` and runs in a step of its own. */
module PoolLeaseSteps {
  import opened Sequences
  import opened Wrappers

  datatype Outcome = Leased(slot: nat) | Closed | TimedOut | Cancelled

  /** A coroutine is parked from its suspension to its resumption; its continuation is stored until it is taken. */
  datatype Acquire = Acquire(
    alive: bool, awaited: bool, threw: bool,
    waiter: nat,                    // waiter_id_, 0 before it is queued
    queued: bool,
    result: Option<Outcome>,
    deadline: bool,                 // the timer is armed
    stoppable: bool,                // the stop callback can still run
    continuation: bool,
    parked: bool)

  /** Which slots are idle; `granted` and `returned` count each slot's leases and releases. */
  datatype Slots = Slots(free: seq<nat>, busy: seq<bool>, granted: multiset<nat>, returned: multiset<nat>)

  /** The waiting line; `handed` lists the waiter ids that were handed a slot, in order. */
  datatype Line = Line(
    acquires: seq<Acquire>, queue: seq<nat>, resumptions: seq<nat>, nextWaiter: nat, handed: seq<nat>)

  datatype State = State(slots: Slots, line: Line, closing: bool, reserved: nat, posted: seq<nat>)

  /** What the worker and the stop token do while one acquire suspends. */
  datatype Timeout = NoTimeout | Elapsed(timersStopping: bool) | After(armThrows: bool)
  datatype Stop = NoStop | Watched | RunsInline

  datatype Step =
    | Create
    | Await(i: nat, stopRequested: bool, timeout: Timeout, stop: Stop)
    | Release(slot: nat)
    | Close
    | Expire(i: nat)
    | StopHere(i: nat)              // the stop callback, on the worker
    | StopElsewhere(i: nat)         // ... or on another thread
    | RunPosted                     // the oldest posted cancellation
    | Resume(k: nat)
    | Destroy(i: nat)

  const NEW_ACQUIRE := Acquire(true, false, false, 0, false, None, false, false, false, false)

  ghost predicate Enabled(s: State, step: Step) {
    var a := s.line.acquires;
    match step
    case Create => true
    case Await(i, _, _, _) => i < |a| && a[i].alive && !a[i].awaited
    case Release(slot) => slot < |s.slots.busy| && s.slots.busy[slot]
    case Close => true
    case Expire(i) => i < |a| && a[i].deadline
    case StopHere(i) => i < |a| && a[i].stoppable
    case StopElsewhere(i) => i < |a| && a[i].stoppable
    case RunPosted => s.posted != []
    case Resume(k) => k < |s.line.resumptions|
    case Destroy(i) => i < |a| && a[i].alive && i !in s.line.resumptions
  }

  // ----- the waiting line

  function At(line: Line, i: nat): Acquire {
    if i < |line.acquires| then line.acquires[i] else NEW_ACQUIRE
  }

  function Put(line: Line, i: nat, a: Acquire): Line {
    if i < |line.acquires| then line.(acquires := line.acquires[i := a]) else line
  }

  /** Takes a queued acquire out of the line with its result; its coroutine is owed a resumption. */
  function Settle(line: Line, i: nat, outcome: Outcome): Line {
    var a := At(line, i);
    Put(line, i, a.(queued := false, result := Some(outcome), deadline := false, continuation := false)).(
    queue := Without(line.queue, i),
    resumptions := if a.continuation then line.resumptions + [i] else line.resumptions)
  }

  /** The same, with the registrations of the acquire withdrawn. */
  function SettleAndDisarm(line: Line, i: nat, outcome: Outcome): Line {
    var settled := Settle(line, i, outcome);
    Put(settled, i, At(settled, i).(stoppable := false))
  }

  /** cancel_registrations. */
  function Disarm(line: Line, i: nat): Line {
    Put(line, i, At(line, i).(queued := false, deadline := false, stoppable := false)).(
    queue := Without(line.queue, i))
  }

  function CloseAll(line: Line): Line
    decreases |line.queue|
  {
    if line.queue == [] then line
    else
      var rest := SettleAndDisarm(line, line.queue[0], Closed);
      if |rest.queue| < |line.queue| then CloseAll(rest) else rest
  }

  /** The queued acquire that has this waiter id. */
  function Find(line: Line, queue: seq<nat>, id: nat): Option<nat>
    decreases |queue|
  {
    if queue == [] then None
    else if At(line, queue[0]).waiter == id then Some(queue[0])
    else Find(line, queue[1..], id)
  }

  function Cancel(line: Line, i: nat): Line {
    if At(line, i).queued then Settle(line, i, Cancelled) else line
  }

  // ----- the steps

  /** try_acquire: a result unless the pool is saturated. */
  function TryAcquire(s: State, stopRequested: bool): Option<Outcome> {
    if s.closing then Some(Closed)
    else if stopRequested then Some(Cancelled)
    else if s.slots.free == [] then None
    else Some(Leased(s.slots.free[|s.slots.free| - 1]))
  }

  function TakeSlot(slots: Slots, slot: nat): Slots {
    if slots.free == [] || slot >= |slots.busy| then slots
    else slots.(free := slots.free[..|slots.free| - 1], busy := slots.busy[slot := true],
                granted := slots.granted + multiset{slot})
  }

  function ApplyReady(s: State, i: nat, stopRequested: bool): State {
    var result := TryAcquire(s, stopRequested);
    s.(line := Put(s.line, i, At(s.line, i).(awaited := true, result := result)),
       slots := if result.Some? && result.value.Leased? then TakeSlot(s.slots, result.value.slot) else s.slots)
  }

  /** await_suspend up to its last test. */
  function Enqueue(line: Line, i: nat): Line {
    Put(line, i, At(line, i).(waiter := line.nextWaiter + 1, queued := true)).(
    queue := line.queue + [i], nextWaiter := line.nextWaiter + 1)
  }

  function Arm(line: Line, i: nat, timeout: Timeout, stop: Stop): Line {
    var a := At(line, i);
    var timed := if timeout == Elapsed(false) then a.(result := Some(TimedOut))
                 else if timeout.After? then a.(deadline := true)
                 else a;
    if timed.result.Some? || stop == NoStop then Put(line, i, timed)
    else if stop == Watched then Put(line, i, timed.(stoppable := true))
    else Settle(Put(line, i, timed), i, Cancelled)
  }

  function Suspend(line: Line, i: nat, timeout: Timeout, stop: Stop): Line {
    var queued := Enqueue(line, i);
    if timeout == After(true) then
      var gone := Disarm(queued, i);
      Put(gone, i, At(gone, i).(threw := true))
    else
      var armed := Arm(queued, i, timeout, stop);
      if At(armed, i).result.Some? then Disarm(armed, i)
      else Put(armed, i, At(armed, i).(continuation := true, parked := true))
  }

  function ApplyAwait(s: State, i: nat, stopRequested: bool, timeout: Timeout, stop: Stop): State {
    var ready := ApplyReady(s, i, stopRequested);
    if At(ready.line, i).result.Some? then ready
    else ready.(line := Suspend(ready.line, i, timeout, stop))
  }

  function ApplyRelease(s: State, slot: nat): State {
    var returned := s.slots.(returned := s.slots.returned + multiset{slot});
    if !s.closing && s.line.queue != [] then
      var i := s.line.queue[0];
      s.(slots := returned.(granted := s.slots.granted + multiset{slot}),
         line := SettleAndDisarm(s.line, i, Leased(slot)).(handed := s.line.handed + [At(s.line, i).waiter]))
    else if slot < |s.slots.busy| then
      s.(slots := returned.(busy := s.slots.busy[slot := false], free := s.slots.free + [slot]))
    else s
  }

  function ApplyPosted(s: State): State {
    if s.posted == [] then s
    else
      var found := Find(s.line, s.line.queue, s.posted[0]);
      s.(posted := s.posted[1..], line := if found.Some? then Cancel(s.line, found.value) else s.line)
  }

  function ApplyResume(line: Line, k: nat): Line {
    if k >= |line.resumptions| then line
    else
      var i := line.resumptions[k];
      var awake := Disarm(line, i);
      Put(awake, i, At(awake, i).(parked := false)).(
      resumptions := line.resumptions[..k] + line.resumptions[k + 1..])
  }

  function ApplyDestroy(line: Line, i: nat): Line {
    var gone := Disarm(line, i);
    Put(gone, i, At(gone, i).(alive := false, continuation := false, parked := false))
  }

  function Apply(s: State, step: Step): State {
    match step
    case Create => s.(line := s.line.(acquires := s.line.acquires + [NEW_ACQUIRE]), reserved := s.reserved + 1)
    case Await(i, stopRequested, timeout, stop) => ApplyAwait(s, i, stopRequested, timeout, stop)
    case Release(slot) => ApplyRelease(s, slot)
    case Close => if s.closing then s else s.(closing := true, line := CloseAll(s.line))
    case Expire(i) => if At(s.line, i).queued then s.(line := SettleAndDisarm(s.line, i, TimedOut)) else s
    case StopHere(i) =>
      var fired := Put(s.line, i, At(s.line, i).(stoppable := false));
      s.(line := Cancel(fired, i))
    case StopElsewhere(i) =>
      s.(line := Put(s.line, i, At(s.line, i).(stoppable := false)), posted := s.posted + [At(s.line, i).waiter])
    case RunPosted => ApplyPosted(s)
    case Resume(k) => s.(line := ApplyResume(s.line, k))
    case Destroy(i) => s.(line := ApplyDestroy(s.line, i), reserved := if s.reserved > 0 then s.reserved - 1 else 0)
  }

  // ----- what every run keeps

  function Held(busy: seq<bool>, slot: nat): nat {
    if slot < |busy| && busy[slot] then 1 else 0
  }

  /** A slot is in the free list exactly once iff it is idle, and out on at most one lease. */
  ghost predicate SlotsOk(slots: Slots) {
    && (forall slot :: slot in slots.free ==> slot < |slots.busy|)
    && (forall slot :: 0 <= slot < |slots.busy| ==> multiset(slots.free)[slot] == 1 - Held(slots.busy, slot))
    && (forall slot: nat :: slots.granted[slot] == slots.returned[slot] + Held(slots.busy, slot))
  }

  /** Each acquire on its own: queued exactly while it waits without a result. */
  ghost predicate AcquireOk(a: Acquire) {
    && (!a.awaited ==> a == NEW_ACQUIRE.(alive := a.alive))
    && (a.queued ==> a.alive && a.awaited && !a.threw && a.result == None && a.waiter > 0 && a.parked)
    && (a.continuation <==> a.queued)
    && (a.deadline ==> a.queued)
    && (a.stoppable ==> a.alive && a.waiter > 0)
    && (a.result.Some? ==> a.awaited)
    && (a.alive && a.awaited && a.result == None ==> a.queued || a.threw)
    && (a.parked ==> a.alive && a.awaited && (a.queued || a.result.Some?))
  }

  /** The queue is the set of queued acquires; each parked coroutine is queued or owed one resumption. */
  ghost predicate LinksOk(line: Line) {
    && Distinct(line.queue) && Distinct(line.resumptions)
    && (forall i :: i in line.queue ==> i < |line.acquires|)
    && (forall i :: i in line.resumptions ==> i < |line.acquires|)
    && (forall i :: 0 <= i < |line.acquires| ==>
          && AcquireOk(line.acquires[i])
          && (line.acquires[i].queued <==> i in line.queue)
          && (i in line.resumptions <==> line.acquires[i].parked && !line.acquires[i].queued))
  }

  /** The waiter ids of a queue, head first. */
  ghost function Ids(acquires: seq<Acquire>, queue: seq<nat>): (r: seq<nat>)
    ensures |r| == |queue|
    ensures forall k :: 0 <= k < |queue| ==> r[k] == if queue[k] < |acquires| then acquires[queue[k]].waiter else 0
  {
    seq(|queue|, k requires 0 <= k < |queue| => if queue[k] < |acquires| then acquires[queue[k]].waiter else 0)
  }

  ghost predicate Increasing(s: seq<nat>) {
    forall j, k :: 0 <= j < k < |s| ==> s[j] < s[k]
  }

  /** Slots were handed out in arrival order, and those still queued arrived later. */
  ghost predicate OrderOk(line: Line) {
    && Increasing(line.handed + Ids(line.acquires, line.queue))
    && (forall id :: id in line.handed ==> id <= line.nextWaiter)
    && (forall i :: 0 <= i < |line.acquires| ==> line.acquires[i].waiter <= line.nextWaiter)
  }

  /** Nobody waits while a slot is idle or after the pool closed. */
  ghost predicate Saturated(s: State) {
    s.line.queue != [] ==> s.slots.free == [] && !s.closing
  }

  ghost function Living(acquires: seq<Acquire>): nat {
    if acquires == [] then 0 else Living(acquires[..|acquires| - 1]) + (if acquires[|acquires| - 1].alive then 1 else 0)
  }

  ghost predicate Inv(s: State) {
    SlotsOk(s.slots) && LinksOk(s.line) && OrderOk(s.line) && Saturated(s) && s.reserved == Living(s.line.acquires)
  }

  // ----- the waiting line, operation by operation

  lemma IdsDrop(acquires: seq<Acquire>, queue: seq<nat>, k: nat)
    requires k < |queue|
    ensures Ids(acquires, queue[..k] + queue[k + 1..]) == Ids(acquires, queue)[..k] + Ids(acquires, queue)[k + 1..]
  {
  }

  lemma OrderWithout(handed: seq<nat>, ids: seq<nat>, k: nat)
    requires k < |ids| && Increasing(handed + ids)
    ensures Increasing(handed + (ids[..k] + ids[k + 1..]))
  {
    var n := |handed| + k;
    DropKeepsOrder(handed + ids, n);
    assert handed + (ids[..k] + ids[k + 1..]) == (handed + ids)[..n] + (handed + ids)[n + 1..];
  }

  lemma IdsWithout(acquires: seq<Acquire>, queue: seq<nat>, handed: seq<nat>, i: nat)
    requires Distinct(queue) && Increasing(handed + Ids(acquires, queue))
    ensures Increasing(handed + Ids(acquires, Without(queue, i)))
  {
    hide Increasing, Ids;
    if i in queue {
      var k :| 0 <= k < |queue| && queue[k] == i;
      IdsWithoutAt(acquires, queue, handed, k);
    }
  }

  lemma IdsWithoutAt(acquires: seq<Acquire>, queue: seq<nat>, handed: seq<nat>, k: nat)
    requires k < |queue| && Distinct(queue) && Increasing(handed + Ids(acquires, queue))
    ensures Increasing(handed + Ids(acquires, Without(queue, queue[k])))
  {
    hide *;
    WithoutAt(queue, k);
    IdsDrop(acquires, queue, k);
    OrderWithout(handed, Ids(acquires, queue), k);
  }

  lemma IdsAfterHead(acquires: seq<Acquire>, queue: seq<nat>, handed: seq<nat>)
    requires queue != []
    ensures handed + Ids(acquires, queue) == (handed + [Ids(acquires, queue)[0]]) + Ids(acquires, queue[1..])
  {
    assert Ids(acquires, queue) == [Ids(acquires, queue)[0]] + Ids(acquires, queue[1..]);
  }

  lemma DropKeepsOrder(s: seq<nat>, k: nat)
    requires k < |s| && Increasing(s)
    ensures Increasing(s[..k] + s[k + 1..])
  {
  }

  /** The line after an acquire changed, other than its waiter id. */
  lemma SameIds(acquires: seq<Acquire>, queue: seq<nat>, i: nat, a: Acquire)
    requires i < |acquires| && a.waiter == acquires[i].waiter
    ensures Ids(acquires[i := a], queue) == Ids(acquires, queue)
  {
  }

  lemma {:induction false} SameLiving(acquires: seq<Acquire>, i: nat, a: Acquire)
    requires i < |acquires|
    ensures Living(acquires[i := a]) + (if acquires[i].alive then 1 else 0)
         == Living(acquires) + (if a.alive then 1 else 0)
  {
    var n := |acquires| - 1;
    if i < n {
      assert acquires[i := a][..n] == acquires[..n][i := a];
      SameLiving(acquires[..n], i, a);
    } else {
      assert acquires[i := a][..n] == acquires[..n];
    }
  }

  /** One acquire leaves the queue with changed fields. */
  ghost predicate Leaves(line: Line, after: Line, i: nat, a: Acquire) {
    && i < |line.acquires|
    && a.waiter == line.acquires[i].waiter && a.alive == line.acquires[i].alive
    && after.acquires == line.acquires[i := a]
    && after.queue == Without(line.queue, i)
    && after.nextWaiter == line.nextWaiter
  }

  lemma LeavingKeepsOrder(line: Line, after: Line, i: nat, a: Acquire)
    requires OrderOk(line) && LinksOk(line) && Leaves(line, after, i, a)
    ensures after.handed == line.handed ==> OrderOk(after)
    ensures line.queue != [] && line.queue[0] == i && after.handed == line.handed + [line.acquires[i].waiter] ==>
              OrderOk(after)
    ensures Living(after.acquires) == Living(line.acquires)
  {
    hide Increasing, AcquireOk, Distinct;
    SameIds(line.acquires, line.queue, i, a);
    SameIds(line.acquires, Without(line.queue, i), i, a);
    IdsWithout(line.acquires, line.queue, line.handed, i);
    SameLiving(line.acquires, i, a);
    if line.queue != [] && line.queue[0] == i {
      IdsAfterHead(line.acquires, line.queue, line.handed);
    }
  }

  /** Settling a queued acquire: its result is set once, and its coroutine is owed a resumption once. */
  lemma SettleKeepsLinks(line: Line, i: nat, outcome: Outcome)
    requires LinksOk(line) && i in line.queue
    ensures LinksOk(Settle(line, i, outcome)) && LinksOk(SettleAndDisarm(line, i, outcome))
    ensures |Settle(line, i, outcome).queue| + 1 == |line.queue|
  {
    WithoutIsDistinct(line.queue, i);
  }

  lemma SettleKeeps(line: Line, i: nat, outcome: Outcome)
    requires LinksOk(line) && OrderOk(line) && i in line.queue
    ensures OrderOk(Settle(line, i, outcome)) && OrderOk(SettleAndDisarm(line, i, outcome))
    ensures Living(Settle(line, i, outcome).acquires) == Living(line.acquires)
    ensures Living(SettleAndDisarm(line, i, outcome).acquires) == Living(line.acquires)
  {
    var settled, disarmed := Settle(line, i, outcome), SettleAndDisarm(line, i, outcome);
    LeavingKeepsOrder(line, settled, i, settled.acquires[i]);
    LeavingKeepsOrder(line, disarmed, i, disarmed.acquires[i]);
  }

  lemma {:induction false} CloseAllKeeps(line: Line)
    requires LinksOk(line) && OrderOk(line)
    ensures LinksOk(CloseAll(line)) && OrderOk(CloseAll(line)) && CloseAll(line).queue == []
    ensures Living(CloseAll(line).acquires) == Living(line.acquires)
    decreases |line.queue|
  {
    if line.queue != [] {
      var i := line.queue[0];
      assert i in line.queue;
      SettleKeepsLinks(line, i, Closed);
      SettleKeeps(line, i, Closed);
      CloseAllKeeps(SettleAndDisarm(line, i, Closed));
    }
  }

  // ----- each step keeps the invariant

  lemma CreateKeeps(s: State)
    requires Inv(s)
    ensures Inv(Apply(s, Create))
  {
    hide LinksOk, OrderOk, SlotsOk;
    var after := s.line.acquires + [NEW_ACQUIRE];
    assert after[..|after| - 1] == s.line.acquires;
    CreateKeepsLinks(s.line);
    CreateKeepsOrder(s.line);
  }

  lemma CreateKeepsLinks(line: Line)
    requires LinksOk(line)
    ensures LinksOk(line.(acquires := line.acquires + [NEW_ACQUIRE]))
  {
    hide Distinct;
  }

  lemma CreateKeepsOrder(line: Line)
    requires LinksOk(line) && OrderOk(line)
    ensures OrderOk(line.(acquires := line.acquires + [NEW_ACQUIRE]))
  {
    hide Distinct, AcquireOk;
    assert Ids(line.acquires + [NEW_ACQUIRE], line.queue) == Ids(line.acquires, line.queue);
  }

  lemma DropLast(free: seq<nat>)
    requires free != []
    ensures var rest, last := free[..|free| - 1], free[|free| - 1];
            && (forall x :: x in rest ==> x in free)
            && (forall x :: multiset(free)[x] == multiset(rest)[x] + (if x == last then 1 else 0))
  {
    assert free == free[..|free| - 1] + [free[|free| - 1]];
  }

  lemma TakeSlotKeeps(slots: Slots)
    requires SlotsOk(slots) && slots.free != []
    ensures var slot := slots.free[|slots.free| - 1];
            slot < |slots.busy| && !slots.busy[slot] && SlotsOk(TakeSlot(slots, slot))
  {
    hide Held;
    var slot := slots.free[|slots.free| - 1];
    LastIsIdle(slots);
    DropLast(slots.free);
    HeldByOneMore(slots.busy, slot);
    var t := TakeSlot(slots, slot);
    assert t.free == slots.free[..|slots.free| - 1];
  }

  lemma LastIsIdle(slots: Slots)
    requires SlotsOk(slots) && slots.free != []
    ensures var slot := slots.free[|slots.free| - 1]; slot < |slots.busy| && !slots.busy[slot]
  {
    var slot := slots.free[|slots.free| - 1];
    assert slot in slots.free && multiset(slots.free)[slot] > 0;
  }

  lemma HeldByOneMore(busy: seq<bool>, slot: nat)
    requires slot < |busy| && !busy[slot]
    ensures forall x: nat :: Held(busy[slot := true], x) == Held(busy, x) + (if x == slot then 1 else 0)
  {
  }

  lemma PutBackKeeps(slots: Slots, slot: nat)
    requires SlotsOk(slots) && slot < |slots.busy| && slots.busy[slot]
    ensures SlotsOk(slots.(busy := slots.busy[slot := false], free := slots.free + [slot],
                           returned := slots.returned + multiset{slot}))
    ensures SlotsOk(slots.(granted := slots.granted + multiset{slot}, returned := slots.returned + multiset{slot}))
  {
    assert multiset(slots.free + [slot]) == multiset(slots.free) + multiset{slot};
  }

  lemma AnsweredKeepsLine(line: Line, i: nat, outcome: Outcome)
    requires LinksOk(line) && OrderOk(line) && i < |line.acquires| && line.acquires[i] == NEW_ACQUIRE
    ensures var answered := Put(line, i, NEW_ACQUIRE.(awaited := true, result := Some(outcome)));
            LinksOk(answered) && OrderOk(answered) && Living(answered.acquires) == Living(line.acquires)
  {
    var a := NEW_ACQUIRE.(awaited := true, result := Some(outcome));
    SameIds(line.acquires, line.queue, i, a);
    SameLiving(line.acquires, i, a);
  }

  lemma ReadyKeeps(s: State, i: nat, stopRequested: bool)
    requires Inv(s) && i < |s.line.acquires| && s.line.acquires[i] == NEW_ACQUIRE
    requires TryAcquire(s, stopRequested).Some?
    ensures Inv(ApplyReady(s, i, stopRequested))
  {
    hide SlotsOk, LinksOk, OrderOk;
    AnsweredKeepsLine(s.line, i, TryAcquire(s, stopRequested).value);
    if s.slots.free != [] {
      TakeSlotKeeps(s.slots);
    }
  }

  /** The line after a suspension, case by case: the acquire is last, or it never was there. */
  lemma SuspendResult(line: Line, i: nat, timeout: Timeout, stop: Stop)
    requires i < |line.acquires| && line.acquires[i] == NEW_ACQUIRE.(awaited := true) && i !in line.queue
    ensures var after, id := Suspend(line, i, timeout, stop), line.nextWaiter + 1;
            var a := NEW_ACQUIRE.(awaited := true, waiter := id);
            && after.handed == line.handed && after.resumptions == line.resumptions && after.nextWaiter == id
            && if timeout == After(true) then
                 after.queue == line.queue && after.acquires == line.acquires[i := a.(threw := true)]
               else if timeout == Elapsed(false) then
                 after.queue == line.queue && after.acquires == line.acquires[i := a.(result := Some(TimedOut))]
               else if stop == RunsInline then
                 after.queue == line.queue && after.acquires == line.acquires[i := a.(result := Some(Cancelled))]
               else
                 && after.queue == line.queue + [i]
                 && after.acquires == line.acquires[
                      i := a.(queued := true, continuation := true, parked := true,
                          deadline := timeout == After(false), stoppable := stop == Watched)]
  {
    WithoutLast(line.queue, i);
  }

  lemma {:induction false} WithoutLast(queue: seq<nat>, i: nat)
    requires i !in queue
    ensures Without(queue + [i], i) == queue
  {
    if queue != [] {
      WithoutLast(queue[1..], i);
      assert (queue + [i])[1..] == queue[1..] + [i];
    }
  }

  ghost function Awaited(line: Line, i: nat): Line {
    Put(line, i, NEW_ACQUIRE.(awaited := true))
  }

  lemma SuspendKeepsLinks(line: Line, i: nat, timeout: Timeout, stop: Stop)
    requires LinksOk(line) && i < |line.acquires| && line.acquires[i] == NEW_ACQUIRE
    ensures LinksOk(Suspend(Awaited(line, i), i, timeout, stop))
  {
    hide Suspend;
    SuspendResult(Awaited(line, i), i, timeout, stop);
    var after := Suspend(Awaited(line, i), i, timeout, stop);
    assert after.acquires == line.acquires[i := after.acquires[i]];
  }

  lemma AppendKeepsOrder(s: seq<nat>, x: nat)
    requires Increasing(s) && forall y :: y in s ==> y < x
    ensures Increasing(s + [x])
  {
    forall j, k | 0 <= j < k < |s| + 1 ensures (s + [x])[j] < (s + [x])[k] {
      if k == |s| {
        assert s[j] in s;
      }
    }
  }

  lemma AppendId(handed: seq<nat>, before: seq<Acquire>, after: seq<Acquire>, queue: seq<nat>, i: nat, top: nat)
    requires |after| == |before| && i < |after| && i !in queue
    requires forall j :: 0 <= j < |before| && j != i ==> after[j].waiter == before[j].waiter
    requires forall j :: 0 <= j < |before| ==> before[j].waiter <= top
    requires Increasing(handed + Ids(before, queue)) && (forall id :: id in handed ==> id <= top)
    ensures Increasing(handed + Ids(after, queue))
    ensures after[i].waiter > top ==> Increasing(handed + Ids(after, queue + [i]))
  {
    hide Increasing;
    var ids := Ids(before, queue);
    assert Ids(after, queue) == ids;
    if after[i].waiter > top {
      forall y | y in handed + ids ensures y < after[i].waiter {
      }
      AppendKeepsOrder(handed + ids, after[i].waiter);
      assert Ids(after, queue + [i]) == ids + [after[i].waiter];
      assert handed + Ids(after, queue + [i]) == (handed + ids) + [after[i].waiter];
    }
  }

  lemma SuspendKeeps(s: State, i: nat, timeout: Timeout, stop: Stop)
    requires Inv(s) && i < |s.line.acquires| && s.line.acquires[i] == NEW_ACQUIRE
    requires s.slots.free == [] && !s.closing
    ensures Inv(s.(line := Suspend(Awaited(s.line, i), i, timeout, stop)))
  {
    var line, after := s.line, Suspend(Awaited(s.line, i), i, timeout, stop);
    SuspendKeepsLinks(line, i, timeout, stop);
    SuspendKeepsOrder(line, i, timeout, stop);
  }

  lemma SuspendKeepsOrder(line: Line, i: nat, timeout: Timeout, stop: Stop)
    requires LinksOk(line) && OrderOk(line) && i < |line.acquires| && line.acquires[i] == NEW_ACQUIRE
    requires i !in line.queue
    ensures var after := Suspend(Awaited(line, i), i, timeout, stop);
            OrderOk(after) && Living(after.acquires) == Living(line.acquires)
  {
    hide Suspend, AcquireOk, Distinct;
    var after := Suspend(Awaited(line, i), i, timeout, stop);
    SuspendResult(Awaited(line, i), i, timeout, stop);
    assert after.acquires == line.acquires[i := after.acquires[i]];
    SameLiving(line.acquires, i, after.acquires[i]);
    AppendId(line.handed, line.acquires, after.acquires, line.queue, i, line.nextWaiter);
  }

  lemma AwaitKeeps(s: State, i: nat, stopRequested: bool, timeout: Timeout, stop: Stop)
    requires Inv(s) && Enabled(s, Await(i, stopRequested, timeout, stop))
    ensures Inv(Apply(s, Await(i, stopRequested, timeout, stop)))
  {
    hide SlotsOk, OrderOk, Suspend;
    assert s.line.acquires[i] == NEW_ACQUIRE;
    if TryAcquire(s, stopRequested).Some? {
      ReadyKeeps(s, i, stopRequested);
    } else {
      SuspendKeeps(s, i, timeout, stop);
      assert ApplyReady(s, i, stopRequested).line == Awaited(s.line, i);
    }
  }

  lemma HandedKeepsLinks(line: Line, handed: seq<nat>)
    requires LinksOk(line)
    ensures LinksOk(line.(handed := handed))
  {
  }

  lemma HandoffKeepsOrder(line: Line, outcome: Outcome)
    requires LinksOk(line) && OrderOk(line) && line.queue != []
    ensures var i := line.queue[0];
            OrderOk(SettleAndDisarm(line, i, outcome).(handed := line.handed + [At(line, i).waiter]))
  {
    var i := line.queue[0];
    assert i in line.queue;
    var after := SettleAndDisarm(line, i, outcome).(handed := line.handed + [At(line, i).waiter]);
    LeavingKeepsOrder(line, after, i, after.acquires[i]);
  }

  lemma ReleaseKeeps(s: State, slot: nat)
    requires Inv(s) && Enabled(s, Release(slot))
    ensures Inv(ApplyRelease(s, slot))
  {
    PutBackKeeps(s.slots, slot);
    var line := s.line;
    if !s.closing && line.queue != [] {
      var i := line.queue[0];
      assert i in line.queue;
      hide SlotsOk, LinksOk, OrderOk, SettleAndDisarm;
      SettleKeepsLinks(line, i, Leased(slot));
      SettleKeeps(line, i, Leased(slot));
      HandedKeepsLinks(SettleAndDisarm(line, i, Leased(slot)), line.handed + [At(line, i).waiter]);
      HandoffKeepsOrder(line, Leased(slot));
    }
  }

  lemma FiredKeeps(line: Line, i: nat)
    requires LinksOk(line) && OrderOk(line) && i < |line.acquires|
    ensures var fired := Put(line, i, At(line, i).(stoppable := false));
            LinksOk(fired) && OrderOk(fired) && Living(fired.acquires) == Living(line.acquires)
  {
    var a := At(line, i).(stoppable := false);
    SameIds(line.acquires, line.queue, i, a);
    SameLiving(line.acquires, i, a);
  }

  lemma CancelKeeps(line: Line, i: nat)
    requires LinksOk(line) && OrderOk(line)
    ensures LinksOk(Cancel(line, i)) && OrderOk(Cancel(line, i))
    ensures Living(Cancel(line, i).acquires) == Living(line.acquires)
    ensures line.queue == [] ==> Cancel(line, i).queue == []
  {
    if At(line, i).queued {
      assert i in line.queue;
      SettleKeepsLinks(line, i, Cancelled);
      SettleKeeps(line, i, Cancelled);
    }
  }

  lemma ResumeKeeps(line: Line, k: nat)
    requires LinksOk(line) && OrderOk(line) && k < |line.resumptions|
    ensures LinksOk(ApplyResume(line, k)) && OrderOk(ApplyResume(line, k))
    ensures Living(ApplyResume(line, k).acquires) == Living(line.acquires)
    ensures line.queue == ApplyResume(line, k).queue
  {
    var i, after := line.resumptions[k], ApplyResume(line, k);
    assert i in line.resumptions;
    assert Without(line.queue, i) == line.queue;
    LeavingKeepsOrder(line, after, i, after.acquires[i]);
    ResumeKeepsLinks(line, k, after.acquires[i]);
  }

  lemma ResumeKeepsLinks(line: Line, k: nat, a: Acquire)
    requires LinksOk(line) && k < |line.resumptions| && line.resumptions[k] < |line.acquires|
    requires a == line.acquires[line.resumptions[k]].(stoppable := false, parked := false)
    ensures LinksOk(line.(acquires := line.acquires[line.resumptions[k] := a],
                          resumptions := line.resumptions[..k] + line.resumptions[k + 1..]))
  {
    var r, i := line.resumptions, line.resumptions[k];
    var after := r[..k] + r[k + 1..];
    forall x ensures x in after <==> x in r && x != i {
      if x in r && x != i {
        var m :| 0 <= m < |r| && r[m] == x;
        assert x == if m < k then after[m] else after[m - 1];
      }
    }
  }

  lemma DestroyKeepsLinks(line: Line, i: nat)
    requires LinksOk(line) && i < |line.acquires| && i !in line.resumptions
    ensures LinksOk(ApplyDestroy(line, i))
  {
    WithoutIsDistinct(line.queue, i);
  }

  lemma DestroyKeeps(line: Line, i: nat)
    requires LinksOk(line) && OrderOk(line) && i < |line.acquires| && i !in line.resumptions && line.acquires[i].alive
    ensures LinksOk(ApplyDestroy(line, i)) && OrderOk(ApplyDestroy(line, i))
    ensures Living(ApplyDestroy(line, i).acquires) + 1 == Living(line.acquires)
    ensures line.queue == [] ==> ApplyDestroy(line, i).queue == []
  {
    DestroyKeepsLinks(line, i);
    hide Increasing, AcquireOk, Distinct;
    var after := ApplyDestroy(line, i);
    assert after.acquires == line.acquires[i := after.acquires[i]];
    SameIds(line.acquires, Without(line.queue, i), i, after.acquires[i]);
    IdsWithout(line.acquires, line.queue, line.handed, i);
    SameLiving(line.acquires, i, after.acquires[i]);
  }

  lemma StepKeeps(s: State, step: Step)
    requires Inv(s) && Enabled(s, step)
    ensures Inv(Apply(s, step))
  {
    match step
    case Create => CreateKeeps(s);
    case Await(i, stopRequested, timeout, stop) => AwaitKeeps(s, i, stopRequested, timeout, stop);
    case Release(slot) => ReleaseKeeps(s, slot);
    case Close => CloseAllKeeps(s.line);
    case _ => LineStepKeeps(s, step);
  }

  /** The steps that touch only the waiting line. */
  lemma LineStepKeeps(s: State, step: Step)
    requires Inv(s) && Enabled(s, step)
    requires step.Expire? || step.StopHere? || step.StopElsewhere? || step.RunPosted? || step.Resume? || step.Destroy?
    ensures Inv(Apply(s, step))
  {
    var line := s.line;
    match step
    case Expire(i) =>
      assert i in line.queue;
      SettleKeepsLinks(line, i, TimedOut);
      SettleKeeps(line, i, TimedOut);
    case StopHere(i) =>
      FiredKeeps(line, i);
      CancelKeeps(Put(line, i, At(line, i).(stoppable := false)), i);
    case StopElsewhere(i) => FiredKeeps(line, i);
    case RunPosted =>
      var found := Find(line, line.queue, s.posted[0]);
      CancelKeeps(line, if found.Some? then found.value else 0);
    case Resume(k) => ResumeKeeps(line, k);
    case Destroy(i) => DestroyKeeps(line, i);
  }

  // ----- whole runs

  ghost predicate Runs(s: State, steps: seq<Step>)
    decreases |steps|
  {
    steps == [] || (Enabled(s, steps[0]) && Runs(Apply(s, steps[0]), steps[1..]))
  }

  ghost function Reached(s: State, steps: seq<Step>): State
    decreases |steps|
  {
    if steps == [] then s else Reached(Apply(s, steps[0]), steps[1..])
  }

  function Indices(n: nat): (r: seq<nat>)
    ensures |r| == n && forall k :: 0 <= k < n ==> r[k] == k
  {
    seq(n, k requires 0 <= k < n => k)
  }

  function Initial(poolSize: nat): State {
    State(Slots(Indices(poolSize), seq(poolSize, k => false), multiset{}, multiset{}),
          Line([], [], [], 0, []), false, 0, [])
  }

  lemma InitialIsOk(poolSize: nat)
    ensures Inv(Initial(poolSize))
  {
    forall slot: nat | slot < poolSize ensures multiset(Indices(poolSize))[slot] == 1 {
      OnceIfDistinct(Indices(poolSize), Indices(poolSize)[slot]);
    }
  }

  lemma {:induction false} RunKeeps(s: State, steps: seq<Step>)
    requires Inv(s) && Runs(s, steps)
    ensures Inv(Reached(s, steps))
    decreases |steps|
  {
    if steps != [] {
      StepKeeps(s, steps[0]);
      RunKeeps(Apply(s, steps[0]), steps[1..]);
    }
  }

  /** In every reachable state a slot is idle and listed once, or out on exactly one lease. */
  lemma LeasesAreExclusive(poolSize: nat, steps: seq<Step>, slot: nat)
    requires Runs(Initial(poolSize), steps)
    ensures var slots := Reached(Initial(poolSize), steps).slots;
            && slots.returned[slot] <= slots.granted[slot] <= slots.returned[slot] + 1
            && (slot < |slots.busy| ==>
                  if slot in slots.free then
                    !slots.busy[slot] && slots.granted[slot] == slots.returned[slot] && multiset(slots.free)[slot] == 1
                  else
                    slots.busy[slot] && slots.granted[slot] == slots.returned[slot] + 1)
  {
    hide Inv, Initial, Runs, Reached;
    InitialIsOk(poolSize);
    RunKeeps(Initial(poolSize), steps);
    SlotIsIdleOrOut(Reached(Initial(poolSize), steps), slot);
  }

  lemma SlotIsIdleOrOut(s: State, slot: nat)
    requires Inv(s)
    ensures var slots := s.slots;
            && slots.returned[slot] <= slots.granted[slot] <= slots.returned[slot] + 1
            && (slot < |slots.busy| ==>
                  if slot in slots.free then
                    !slots.busy[slot] && slots.granted[slot] == slots.returned[slot] && multiset(slots.free)[slot] == 1
                  else
                    slots.busy[slot] && slots.granted[slot] == slots.returned[slot] + 1)
  {
    hide LinksOk, OrderOk;
    assert slot in s.slots.free <==> multiset(s.slots.free)[slot] > 0;
  }

  /** In every reachable state a suspended coroutine waits with every slot out, or is owed one resumption with a
      result; and an acquire that no longer waits has a result unless arming its deadline threw. */
  lemma NobodyIsForgotten(poolSize: nat, steps: seq<Step>, i: nat)
    requires Runs(Initial(poolSize), steps)
    requires i < |Reached(Initial(poolSize), steps).line.acquires|
    ensures var s := Reached(Initial(poolSize), steps);
            var a := s.line.acquires[i];
            && (a.parked && i in s.line.queue ==>
                  && a.result == None && i !in s.line.resumptions && !s.closing
                  && forall slot :: 0 <= slot < |s.slots.busy| ==> s.slots.busy[slot])
            && (a.parked && i !in s.line.queue ==> a.result.Some? && multiset(s.line.resumptions)[i] == 1)
            && (!a.parked ==> i !in s.line.queue && i !in s.line.resumptions)
            && (a.alive && a.awaited && !a.threw && i !in s.line.queue ==> a.result.Some?)
  {
    hide Inv, Initial, Runs, Reached;
    InitialIsOk(poolSize);
    RunKeeps(Initial(poolSize), steps);
    SuspendedIsOwed(Reached(Initial(poolSize), steps), i);
  }

  lemma SuspendedIsOwed(s: State, i: nat)
    requires Inv(s) && i < |s.line.acquires|
    ensures var a := s.line.acquires[i];
            && (a.parked && i in s.line.queue ==>
                  && a.result == None && i !in s.line.resumptions && !s.closing
                  && forall slot :: 0 <= slot < |s.slots.busy| ==> s.slots.busy[slot])
            && (a.parked && i !in s.line.queue ==> a.result.Some? && multiset(s.line.resumptions)[i] == 1)
            && (!a.parked ==> i !in s.line.queue && i !in s.line.resumptions)
            && (a.alive && a.awaited && !a.threw && i !in s.line.queue ==> a.result.Some?)
  {
    var r, slots := s.line.resumptions, s.slots;
    if slots.free == [] {
      forall slot | 0 <= slot < |slots.busy| ensures slots.busy[slot] {
        assert multiset(slots.free)[slot] == 1 - Held(slots.busy, slot);
      }
    }
    if i in r {
      OnceIfDistinct(r, i);
    }
  }

  /** What no later step takes from an acquire. */
  ghost predicate Continues(a: Acquire, b: Acquire) {
    && (a.awaited ==> b.awaited)
    && (a.result.Some? ==> b.result == a.result)
    && (a.waiter > 0 ==> b.waiter == a.waiter)
    && (a.awaited && !a.queued ==> !b.queued)
  }

  ghost predicate LineContinues(before: Line, after: Line) {
    && |before.acquires| <= |after.acquires|
    && (forall i :: 0 <= i < |before.acquires| ==> Continues(before.acquires[i], after.acquires[i]))
    && before.handed <= after.handed
  }

  lemma SettleContinues(line: Line, i: nat, outcome: Outcome)
    requires LinksOk(line) && i in line.queue
    ensures LineContinues(line, Settle(line, i, outcome)) && LineContinues(line, SettleAndDisarm(line, i, outcome))
  {
  }

  lemma {:induction false} CloseAllContinues(line: Line)
    requires LinksOk(line)
    ensures LineContinues(line, CloseAll(line))
    ensures forall i :: i in line.queue ==>
            i < |CloseAll(line).acquires| && CloseAll(line).acquires[i].result == Some(Closed)
    decreases |line.queue|
  {
    if line.queue != [] {
      var head := line.queue[0];
      assert head in line.queue;
      var rest := SettleAndDisarm(line, head, Closed);
      SettleKeepsLinks(line, head, Closed);
      SettleContinues(line, head, Closed);
      CloseAllContinues(rest);
      forall i | i in line.queue ensures CloseAll(line).acquires[i].result == Some(Closed) {
        assert i != head ==> i in rest.queue;
      }
    }
  }

  lemma SuspendContinues(line: Line, i: nat, timeout: Timeout, stop: Stop)
    requires LinksOk(line) && i < |line.acquires| && line.acquires[i] == NEW_ACQUIRE
    ensures LineContinues(line, Suspend(Awaited(line, i), i, timeout, stop))
  {
    hide Suspend;
    SuspendResult(Awaited(line, i), i, timeout, stop);
    var after := Suspend(Awaited(line, i), i, timeout, stop);
    assert after.acquires == line.acquires[i := after.acquires[i]];
  }

  lemma AwaitContinues(s: State, i: nat, stopRequested: bool, timeout: Timeout, stop: Stop)
    requires Inv(s) && Enabled(s, Await(i, stopRequested, timeout, stop))
    ensures LineContinues(s.line, ApplyAwait(s, i, stopRequested, timeout, stop).line)
  {
    hide SlotsOk, OrderOk, Suspend, Saturated;
    assert s.line.acquires[i] == NEW_ACQUIRE;
    SuspendContinues(s.line, i, timeout, stop);
  }

  lemma StepContinues(s: State, step: Step)
    requires Inv(s) && Enabled(s, step)
    ensures LineContinues(s.line, Apply(s, step).line)
  {
    hide SlotsOk, OrderOk, Suspend, ApplyAwait, Saturated;
    var line := s.line;
    match step
    case Await(i, stopRequested, timeout, stop) => AwaitContinues(s, i, stopRequested, timeout, stop);
    case Release(slot) =>
      if !s.closing && line.queue != [] {
        assert line.queue[0] in line.queue;
        SettleContinues(line, line.queue[0], Leased(slot));
      }
    case Close => CloseAllContinues(line);
    case RunPosted =>
      var found := Find(line, line.queue, s.posted[0]);
      if found.Some? && At(line, found.value).queued {
        SettleContinues(line, found.value, Cancelled);
      }
    case Create =>
    case _ => LineStepContinues(s, step);
  }

  lemma LineStepContinues(s: State, step: Step)
    requires LinksOk(s.line) && Enabled(s, step)
    requires step.Expire? || step.StopHere? || step.StopElsewhere? || step.Resume? || step.Destroy?
    ensures LineContinues(s.line, Apply(s, step).line)
  {
    hide Distinct;
  }

  lemma {:induction false} RunContinues(s: State, steps: seq<Step>)
    requires Inv(s) && Runs(s, steps)
    ensures LineContinues(s.line, Reached(s, steps).line)
    decreases |steps|
  {
    if steps != [] {
      StepKeeps(s, steps[0]);
      StepContinues(s, steps[0]);
      RunContinues(Apply(s, steps[0]), steps[1..]);
    }
  }

  /** A slot handed over on release stays with the oldest waiter, whatever cancels, expires or closes later. */
  lemma CommittedHandoffStands(s: State, slot: nat, later: seq<Step>)
    requires Inv(s) && !s.closing && s.line.queue != [] && Runs(s, [Release(slot)] + later)
    ensures var released, i := Apply(s, Release(slot)), s.line.queue[0];
            && released.slots.busy == s.slots.busy && released.slots.free == []
            && i in released.line.resumptions
            && At(Reached(s, [Release(slot)] + later).line, i).result == Some(Leased(slot))
  {
    var released, i := Apply(s, Release(slot)), s.line.queue[0];
    assert i in s.line.queue;
    assert ([Release(slot)] + later)[0] == Release(slot) && ([Release(slot)] + later)[1..] == later;
    StepKeeps(s, Release(slot));
    RunContinues(released, later);
    assert Continues(released.line.acquires[i], Reached(released, later).line.acquires[i]);
  }

  lemma LaterIdIsGreater(handed: seq<nat>, ids: seq<nat>, x: nat, y: nat)
    requires Increasing(handed + ids) && x in handed && y in ids
    ensures x < y
  {
    var j :| 0 <= j < |handed| && handed[j] == x;
    var k :| 0 <= k < |ids| && ids[k] == y;
    assert (handed + ids)[j] < (handed + ids)[|handed| + k];
  }

  lemma QueueIsOrdered(line: Line, j: nat, k: nat)
    requires OrderOk(line) && j < k < |line.queue|
    ensures At(line, line.queue[j]).waiter < At(line, line.queue[k]).waiter || line.queue[k] >= |line.acquires|
         || line.queue[j] >= |line.acquires|
  {
    var m, ids := |line.handed|, Ids(line.acquires, line.queue);
    assert (line.handed + ids)[m + j] < (line.handed + ids)[m + k];
  }

  /** An acquire ahead of another in the queue is not waiting any more once the other was handed a slot. */
  lemma FirstComeFirstServed(s: State, steps: seq<Step>, j: nat, k: nat)
    requires Inv(s) && Runs(s, steps) && j < k < |s.line.queue|
    requires At(s.line, s.line.queue[k]).waiter in Reached(s, steps).line.handed
    ensures s.line.queue[j] !in Reached(s, steps).line.queue
  {
    RunKeeps(s, steps);
    RunContinues(s, steps);
    QueueIsOrdered(s.line, j, k);
    assert s.line.queue[j] in s.line.queue && s.line.queue[k] in s.line.queue;
    OvertakenIsGone(s.line, Reached(s, steps).line, s.line.queue[j], At(s.line, s.line.queue[k]).waiter);
  }

  lemma OvertakenIsGone(before: Line, after: Line, i: nat, id: nat)
    requires LinksOk(before) && i in before.queue && before.acquires[i].waiter < id
    requires LineContinues(before, after) && OrderOk(after) && id in after.handed
    ensures i !in after.queue
  {
    hide Increasing;
    assert Continues(before.acquires[i], after.acquires[i]);
    if i in after.queue {
      var m :| 0 <= m < |after.queue| && after.queue[m] == i;
      var ids := Ids(after.acquires, after.queue);
      assert ids[m] == before.acquires[i].waiter;
      LaterIdIsGreater(after.handed, ids, id, ids[m]);
    }
  }

  /** A slot is taken without waiting only when nobody is queued. */
  lemma NobodyIsOvertaken(s: State, i: nat, stopRequested: bool, slot: nat)
    requires Inv(s) && TryAcquire(s, stopRequested) == Some(Leased(slot))
    ensures s.line.queue == [] && slot < |s.slots.busy| && !s.slots.busy[slot]
  {
    assert slot in s.slots.free && multiset(s.slots.free)[slot] > 0;
  }

  /** Closing answers everybody in the queue for good, and nobody waits afterwards. */
  lemma ClosedForGood(s: State, later: seq<Step>)
    requires Inv(s) && Runs(s, [Close] + later)
    ensures var after := Reached(s, [Close] + later);
            && after.closing && after.line.queue == []
            && (!s.closing ==> forall i :: i in s.line.queue ==> At(after.line, i).result == Some(Closed))
  {
    var closed := Apply(s, Close);
    assert ([Close] + later)[0] == Close && ([Close] + later)[1..] == later;
    StepKeeps(s, Close);
    RunKeeps(closed, later);
    RunContinues(closed, later);
    StaysClosed(closed, later);
    if !s.closing {
      CloseAllContinues(s.line);
      forall i | i in s.line.queue ensures At(Reached(closed, later).line, i).result == Some(Closed) {
        assert Continues(closed.line.acquires[i], Reached(closed, later).line.acquires[i]);
      }
    }
  }

  lemma {:induction false} StaysClosed(s: State, steps: seq<Step>)
    requires s.closing && Runs(s, steps)
    ensures Reached(s, steps).closing
    decreases |steps|
  {
    if steps != [] {
      StaysClosed(Apply(s, steps[0]), steps[1..]);
    }
  }

  /** A posted cancellation names the acquire it was posted for, or nobody: a later waiter has another id. */
  lemma {:induction false} FindsTheOwner(line: Line, queue: seq<nat>, id: nat)
    ensures match Find(line, queue, id)
            case Some(i) => i in queue && At(line, i).waiter == id
            case None => forall i :: i in queue ==> At(line, i).waiter != id
    decreases |queue|
  {
    if queue != [] {
      FindsTheOwner(line, queue[1..], id);
    }
  }

  lemma WaiterIdsAreUnique(s: State, i: nat, j: nat)
    requires Inv(s) && i in s.line.queue && j in s.line.queue
    requires s.line.acquires[i].waiter == s.line.acquires[j].waiter
    ensures i == j
  {
    var m, n := |s.line.handed|, Ids(s.line.acquires, s.line.queue);
    var a :| 0 <= a < |s.line.queue| && s.line.queue[a] == i;
    var b :| 0 <= b < |s.line.queue| && s.line.queue[b] == j;
    assert (s.line.handed + n)[m + a] == (s.line.handed + n)[m + b];
  }

  /** A posted cancellation settles a queued acquire with that waiter id; every other acquire is as it was. */
  lemma PostedCancelsItsOwner(s: State, i: nat)
    requires Inv(s) && s.posted != [] && i < |s.line.acquires|
    ensures var after := Apply(s, RunPosted).line;
            i < |after.acquires| &&
            after.acquires[i] ==
              if i in s.line.queue && s.line.acquires[i].waiter == s.posted[0]
              then s.line.acquires[i].(queued := false, deadline := false, continuation := false,
                                          result := Some(Cancelled))
              else s.line.acquires[i]
  {
    FindsTheOwner(s.line, s.line.queue, s.posted[0]);
    var found := Find(s.line, s.line.queue, s.posted[0]);
    if found.Some? && i in s.line.queue && s.line.acquires[i].waiter == s.posted[0] {
      WaiterIdsAreUnique(s, i, found.value);
    }
  }

  // ----- who is answered what

  /** What an await is answered at once: a closed scheduler says closed, whatever the stop token says; a stopped token
      cancels, whatever is free; and a free slot is leased. With every slot out only an elapsed deadline or a stop that
      comes while the acquire suspends answers it. */
  function Immediate(s: State, stopRequested: bool, timeout: Timeout, stop: Stop): Option<Outcome> {
    if s.closing then Some(Closed)
    else if stopRequested then Some(Cancelled)
    else if s.slots.free != [] then Some(Leased(s.slots.free[|s.slots.free| - 1]))
    else if timeout == Elapsed(false) then Some(TimedOut)
    else if timeout != After(true) && stop == RunsInline then Some(Cancelled)
    else None
  }

  /** An await is answered so; otherwise it is the last in the queue, suspended with its registrations, unless arming
      its deadline threw. Its lease is the slot's only one. */
  lemma AwaitIsAnswered(s: State, i: nat, stopRequested: bool, timeout: Timeout, stop: Stop)
    requires Inv(s) && Enabled(s, Await(i, stopRequested, timeout, stop))
    ensures var t := Apply(s, Await(i, stopRequested, timeout, stop));
            var answer := Immediate(s, stopRequested, timeout, stop);
            var a := At(t.line, i);
            && a.awaited && a.result == answer
            && (answer.Some? ==> i !in t.line.queue && !a.parked && t.line.resumptions == s.line.resumptions)
            && (answer.None? && timeout == After(true) ==> a.threw && i !in t.line.queue && !a.parked)
            && (answer.None? && timeout != After(true) ==>
                  && t.line.queue == s.line.queue + [i] && a.parked && !a.threw
                  && a.deadline == timeout.After? && a.stoppable == (stop == Watched))
    ensures var t := Apply(s, Await(i, stopRequested, timeout, stop));
            var answer := Immediate(s, stopRequested, timeout, stop);
            match answer
            case Some(Leased(slot)) =>
              slot < |s.slots.busy| && !s.slots.busy[slot] && t.slots.busy == s.slots.busy[slot := true]
            case _ => t.slots == s.slots
  {
    hide OrderOk, Suspend, Distinct;
    if s.slots.free != [] {
      LastIsIdle(s.slots);
    }
    SuspensionAnswers(s.line, i, timeout, stop);
  }

  lemma SuspensionAnswers(line: Line, i: nat, timeout: Timeout, stop: Stop)
    requires LinksOk(line) && i < |line.acquires| && line.acquires[i] == NEW_ACQUIRE
    ensures var after := Suspend(Awaited(line, i), i, timeout, stop);
            var a := At(after, i);
            && a.awaited
            && a.result == (if timeout == Elapsed(false) then Some(TimedOut)
                            else if timeout != After(true) && stop == RunsInline then Some(Cancelled) else None)
            && (a.result.Some? ==> i !in after.queue && !a.parked && after.resumptions == line.resumptions)
            && (a.result.None? && timeout == After(true) ==> a.threw && i !in after.queue && !a.parked)
            && (a.result.None? && timeout != After(true) ==>
                  && after.queue == line.queue + [i] && a.parked && !a.threw
                  && a.deadline == timeout.After? && a.stoppable == (stop == Watched))
  {
    hide Suspend;
    assert i !in line.queue;
    SuspendResult(Awaited(line, i), i, timeout, stop);
  }

  /** What a step answers a waiter in the queue. */
  function Reply(s: State, step: Step, i: nat): Option<Outcome> {
    match step
    case Release(slot) => if s.line.queue != [] && s.line.queue[0] == i then Some(Leased(slot)) else None
    case Close => Some(Closed)
    case Expire(j) => if j == i then Some(TimedOut) else None
    case StopHere(j) => if j == i then Some(Cancelled) else None
    case RunPosted => if s.posted != [] && At(s.line, i).waiter == s.posted[0] then Some(Cancelled) else None
    case _ => None
  }

  /** A waiter in the queue is answered by its own slot, deadline and stop and by the close, and by nothing else; it
      then leaves the queue and is owed a resumption, and otherwise it goes on waiting. */
  lemma WaiterIsAnswered(s: State, step: Step, i: nat)
    requires Inv(s) && Enabled(s, step) && i in s.line.queue && step != Destroy(i)
    ensures var t := Apply(s, step);
            && At(t.line, i).result == Reply(s, step, i)
            && (Reply(s, step, i).Some? ==> i !in t.line.queue && i in t.line.resumptions)
            && (Reply(s, step, i).None? ==> i in t.line.queue)
            && (Reply(s, step, i).Some? ==> !At(t.line, i).deadline && !At(t.line, i).continuation)
            && (Reply(s, step, i).Some? && step != RunPosted ==> !At(t.line, i).stoppable)
  {
    hide Inv, Apply, Enabled, At, Reply;
    match step
    case Await(j, stopRequested, timeout, stop) => AwaitAnswersNobodyElse(s, step, i);
    case Close => CloseAnswers(s, i);
    case RunPosted => PostedAnswers(s, i);
    case Release(slot) => ReleaseAnswers(s, slot, i);
    case Expire(_) => TurnAnswers(s, step, i);
    case StopHere(_) => TurnAnswers(s, step, i);
    case _ => OthersAnswerNobody(s, step, i);
  }

  /** What WaiterIsAnswered says. */
  ghost predicate AnsweredSo(s: State, step: Step, i: nat) {
    var t := Apply(s, step);
    && At(t.line, i).result == Reply(s, step, i)
    && (Reply(s, step, i).Some? ==> i !in t.line.queue && i in t.line.resumptions)
    && (Reply(s, step, i).None? ==> i in t.line.queue)
    && (Reply(s, step, i).Some? ==> !At(t.line, i).deadline && !At(t.line, i).continuation)
    && (Reply(s, step, i).Some? && step != RunPosted ==> !At(t.line, i).stoppable)
  }

  lemma AwaitAnswersNobodyElse(s: State, step: Step, i: nat)
    requires Inv(s) && Enabled(s, step) && i in s.line.queue && step.Await?
    ensures AnsweredSo(s, step, i)
  {
    hide ApplyAwait;
    AwaitSparesWaiters(s, step.i, step.stopRequested, step.timeout, step.stop, i);
    assert AcquireOk(s.line.acquires[i]);
  }

  lemma CloseAnswers(s: State, i: nat)
    requires Inv(s) && i in s.line.queue
    ensures AnsweredSo(s, Close, i)
  {
    hide CloseAll, OrderOk, SlotsOk;
    CloseAllContinues(s.line);
    CloseAllResumes(s.line);
  }

  lemma {:induction false} CloseAllResumes(line: Line)
    requires LinksOk(line)
    ensures CloseAll(line).queue == [] && line.resumptions <= CloseAll(line).resumptions
    ensures forall i :: i in line.queue ==> i in CloseAll(line).resumptions
    ensures |CloseAll(line).acquires| == |line.acquires|
    ensures forall i :: 0 <= i < |line.acquires| && i !in line.queue ==> At(CloseAll(line), i) == At(line, i)
    ensures forall i :: i in line.queue ==> !At(CloseAll(line), i).deadline && !At(CloseAll(line), i).continuation
                                            && !At(CloseAll(line), i).stoppable
    decreases |line.queue|
  {
    if line.queue != [] {
      var head := line.queue[0];
      assert head in line.queue;
      var rest := SettleAndDisarm(line, head, Closed);
      SettleKeepsLinks(line, head, Closed);
      CloseAllResumes(rest);
      assert rest.resumptions == line.resumptions + [head];
      forall i | i in line.queue ensures i in CloseAll(line).resumptions {
        assert i != head ==> i in rest.queue;
        assert head in rest.resumptions;
      }
    }
  }

  lemma PostedAnswers(s: State, i: nat)
    requires Inv(s) && Enabled(s, RunPosted) && i in s.line.queue
    ensures AnsweredSo(s, RunPosted, i)
  {
    hide Cancel, AcquireOk, Find, OrderOk, SlotsOk, Distinct;
    QueuedIsUnanswered(s.line, i);
    FindsTheOwner(s.line, s.line.queue, s.posted[0]);
    PostedCancelsItsOwner(s, i);
    var found := Find(s.line, s.line.queue, s.posted[0]);
    if found.Some? {
      CancelTakesOut(s.line, found.value);
      if s.line.acquires[i].waiter == s.posted[0] {
        WaiterIdsAreUnique(s, i, found.value);
      }
    }
  }

  lemma QueuedIsUnanswered(line: Line, i: nat)
    requires LinksOk(line) && i in line.queue
    ensures i < |line.acquires| && line.acquires[i].result == None
  {
    assert AcquireOk(line.acquires[i]);
  }

  lemma CancelTakesOut(line: Line, i: nat)
    requires LinksOk(line) && i in line.queue
    ensures Cancel(line, i).queue == Without(line.queue, i) && i in Cancel(line, i).resumptions
    ensures i < |Cancel(line, i).acquires| && Cancel(line, i).acquires[i].result == Some(Cancelled)
    ensures i !in Cancel(line, i).queue
  {
    WithoutIsDistinct(line.queue, i);
    assert AcquireOk(line.acquires[i]);
    assert (line.resumptions + [i])[|line.resumptions|] == i;
  }

  lemma FlagFirst(line: Line, i: nat)
    requires LinksOk(line) && i < |line.acquires|
    ensures LinksOk(Put(line, i, line.acquires[i].(stoppable := false)))
  {
  }

  lemma ReleaseAnswers(s: State, slot: nat, i: nat)
    requires Inv(s) && i in s.line.queue
    ensures AnsweredSo(s, Release(slot), i)
  {
    hide OrderOk, SlotsOk;
    assert s.line.queue[0] in s.line.queue;
    assert AcquireOk(s.line.acquires[i]) && AcquireOk(s.line.acquires[s.line.queue[0]]);
  }

  lemma TurnAnswers(s: State, step: Step, i: nat)
    requires Inv(s) && Enabled(s, step) && i in s.line.queue && (step.Expire? || step.StopHere?)
    ensures AnsweredSo(s, step, i)
  {
    hide OrderOk, SlotsOk;
    assert AcquireOk(s.line.acquires[i]) && AcquireOk(s.line.acquires[step.i]);
    WithoutIsDistinct(s.line.queue, i);
    if step.StopHere? {
      var fired := Put(s.line, step.i, At(s.line, step.i).(stoppable := false));
      FlagFirst(s.line, step.i);
      if step.i in fired.queue {
        CancelTakesOut(fired, step.i);
      }
    }
  }

  lemma OthersAnswerNobody(s: State, step: Step, i: nat)
    requires Inv(s) && Enabled(s, step) && i in s.line.queue && step != Destroy(i)
    requires step.Create? || step.StopElsewhere? || step.Resume? || step.Destroy?
    ensures AnsweredSo(s, step, i)
  {
    hide OrderOk, SlotsOk;
    assert AcquireOk(s.line.acquires[i]);
  }

  lemma AwaitSparesWaiters(s: State, j: nat, stopRequested: bool, timeout: Timeout, stop: Stop, i: nat)
    requires Inv(s) && Enabled(s, Await(j, stopRequested, timeout, stop)) && i in s.line.queue
    ensures var t := ApplyAwait(s, j, stopRequested, timeout, stop);
            At(t.line, i) == At(s.line, i) && i in t.line.queue
  {
  }

  /** The slot released last is the next one leased. */
  lemma LatestReleaseIsLeased(s: State, slot: nat, timeout: Timeout, stop: Stop)
    requires Inv(s) && Enabled(s, Release(slot)) && s.line.queue == [] && !s.closing
    ensures Immediate(Apply(s, Release(slot)), false, timeout, stop) == Some(Leased(slot))
  {
  }

  /** The worker's next n posted cancellations. */
  function PostedTurns(n: nat): (steps: seq<Step>)
    ensures |steps| == n
  {
    if n == 0 then [] else [RunPosted] + PostedTurns(n - 1)
  }

  lemma {:induction false} PostedIsReached(s: State, i: nat)
    requires Inv(s) && i in s.line.queue && At(s.line, i).waiter in s.posted
    ensures Runs(s, PostedTurns(|s.posted|))
    ensures At(Reached(s, PostedTurns(|s.posted|)).line, i).result == Some(Cancelled)
    decreases |s.posted|
  {
    hide Inv, Apply, AcquireOk;
    var t := Apply(s, RunPosted);
    var steps := PostedTurns(|s.posted|);
    assert steps[0] == RunPosted && steps[1..] == PostedTurns(|s.posted| - 1);
    StepKeeps(s, RunPosted);
    WaiterIsAnswered(s, RunPosted, i);
    OnePostedLess(s, i);
    PostedTurnsRun(t, |t.posted|);
    if At(s.line, i).waiter == s.posted[0] {
      RunContinues(t, steps[1..]);
      StillAnswered(t, steps[1..], i);
    } else {
      PostedIsReached(t, i);
    }
  }

  lemma StillAnswered(t: State, steps: seq<Step>, i: nat)
    requires LineContinues(t.line, Reached(t, steps).line) && At(t.line, i).result.Some?
    ensures At(Reached(t, steps).line, i).result == At(t.line, i).result
  {
    assert Continues(t.line.acquires[i], Reached(t, steps).line.acquires[i]);
  }

  lemma {:induction false} PostedTurnsRun(s: State, n: nat)
    requires n <= |s.posted|
    ensures Runs(s, PostedTurns(n))
    decreases n
  {
    hide Apply;
    if n > 0 {
      assert PostedTurns(n)[1..] == PostedTurns(n - 1);
      PostedShrinks(s);
      PostedTurnsRun(Apply(s, RunPosted), n - 1);
    }
  }

  lemma PostedShrinks(s: State)
    requires s.posted != []
    ensures Apply(s, RunPosted).posted == s.posted[1..]
  {
  }

  lemma OnePostedLess(s: State, i: nat)
    requires Inv(s) && i in s.line.queue && s.posted != []
    ensures Apply(s, RunPosted).posted == s.posted[1..]
    ensures At(Apply(s, RunPosted).line, i).waiter == At(s.line, i).waiter
  {
    hide OrderOk, SlotsOk, Saturated;
    PostedCancelsItsOwner(s, i);
  }

  /** A stop on another thread is not lost: once the worker has run what is posted, the waiter was cancelled. */
  lemma StopElsewhereCancels(s: State, i: nat)
    requires Inv(s) && i in s.line.queue && Enabled(s, StopElsewhere(i))
    ensures var t := Apply(s, StopElsewhere(i));
            && t.posted == s.posted + [At(s.line, i).waiter]
            && Runs(t, PostedTurns(|t.posted|))
            && At(Reached(t, PostedTurns(|t.posted|)).line, i).result == Some(Cancelled)
  {
    hide Runs, Reached, PostedTurns;
    var t := Apply(s, StopElsewhere(i));
    StepKeeps(s, StopElsewhere(i));
    assert t.posted[|s.posted|] == At(s.line, i).waiter;
    PostedIsReached(t, i);
  }
}
