/** The state of one worker's timer queue, what every operation keeps, and what code that runs
    inside an operation may have done when it returns (ruvia-core/src/worker_timers.cpp,
    ruvia-core/src/worker_dispatcher_impl.h).

    User code runs wherever a completion is moved, invoked or destroyed. It is a
    parameter: a Turn is any finite sequence of queue operations, each carrying the
    turns it triggers in turn. Foreign threads touch only a slot's activity and the
    worker's handler queue; a Race says what they do between the worker's load of a
    slot's activity and its store. */
module TimerState {
  import opened Sequences
  import opened TimerHeap
  import opened Wrappers

  const NO_SLOT: int := -1
  const COMPACTION_MINIMUM: nat := 64

  datatype Outcome = Expired | Cancelled

  /** What became of the completion of one scheduled timer. A timer is identified by
      its sequence number, which no other timer ever gets. */
  datatype Fate = Delivered(timer: nat, outcome: Outcome) | Destroyed(timer: nat)

  datatype Slot = Slot(generation: nat, nextFree: int, occupied: bool, cancelRequested: bool, timer: nat)

  /** A cancellation handler queued on the worker's io_context. */
  datatype Posted = Posted(slot: nat, generation: nat, notify: bool)

  datatype ForeignStep =
    | Deactivate(slot: nat, generation: nat)
    | Post(handler: Posted)
  datatype Race = Race(before: seq<ForeignStep>, within: seq<ForeignStep>)

  datatype Command =
    | Schedule(deadline: int, onMove: Turn, pushFails: bool, armFails: bool,
               onDrop: Turn, rearmFails: bool, onStop: Sweep)
    | Cancel(slot: nat, generation: nat, notify: bool, race: Race, onDrop: Turn)
    | Unregister(slot: nat, generation: nat, notify: bool, race: Race, onDrop: Turn)
    | Stop(onStop: Sweep)
    | Foreign(steps: seq<ForeignStep>)
  datatype Turn = Quiet | Do(command: Command, rest: Turn)
  /** The turns that the completions swept by stop_timers trigger, in slot order. */
  datatype Sweep = Done | Visit(race: Race, turn: Turn, rest: Sweep)
  datatype Firing = Firing(race: Race, turn: Turn, throws: bool)

  datatype Handler =
    | WaitEnds(generation: nat, error: bool, now: int, firings: seq<Firing>, rearmFails: bool, onStop: Sweep)
    | Cancellation(index: nat, race: Race, turn: Turn)
    | UserWork(turn: Turn)

  datatype Status = Scheduled | WorkerStopping | Failed

  /** Where each timer is. */
  datatype Places = Places(
    home: map<nat, nat>,        // the slot of each pending timer
    deadlines: map<nat, int>,   // the effective deadline of each timer ever queued
    entries: set<Entry>,        // the heap's contents
    unqueued: set<nat>,         // pending timers whose entry was taken by a round or a stop
    free: seq<nat>,             // the free-slot chain
    reserved: set<nat>,         // slots whose completion is still being moved in
    roundLimit: nat)            // first sequence number outside the current round

  /** What happened to each timer. */
  datatype History = History(
    log: seq<Fate>,
    ended: map<nat, nat>,       // index of each finished timer in the log
    withdrawn: set<nat>,        // a cancellation, stop or rollback took effect on it
    dropped: set<nat>,          // the worker was asked to withdraw it silently, or its registration failed
    silenced: set<nat>,         // a foreign silent cancellation succeeded
    raced: set<nat>,            // ... after the worker had loaded the slot's activity
    window: Option<nat>)        // the timer to be delivered whose activity is loaded

  predicate HasOccupied(slots: seq<Slot>, slot: nat, generation: nat) {
    generation != 0 && slot < |slots| && slots[slot].occupied && slots[slot].generation == generation
  }

  predicate Live(slots: seq<Slot>, e: Entry) {
    HasOccupied(slots, e.slot, e.generation) && !slots[e.slot].cancelRequested
  }

  ghost function Dead(entries: set<Entry>, slots: seq<Slot>): set<Entry> {
    set e | e in entries && !Live(slots, e)
  }

  /** The free chain is acyclic and runs through exactly the listed slots. */
  ghost predicate FreeChain(slots: seq<Slot>, head: int, free: seq<nat>) {
    && head == (if free == [] then NO_SLOT else free[0])
    && (forall k :: 0 <= k < |free| ==> free[k] < |slots|)
    && (forall k {:trigger slots[free[k]]} {:trigger Successor(free, k)} ::
          0 <= k < |free| ==> slots[free[k]].nextFree == Successor(free, k))
    && (forall j, k :: 0 <= j < k < |free| ==> free[j] != free[k])
  }

  /** Occupied slots and pending timers correspond one to one. */
  ghost predicate HomesOk(slots: seq<Slot>, next: nat, p: Places) {
    && (forall i :: 0 <= i < |slots| && slots[i].occupied ==>
          slots[i].generation > 0 && slots[i].timer in p.home && p.home[slots[i].timer] == i)
    && (forall t :: t in p.home ==>
          t < next && p.home[t] < |slots| && slots[p.home[t]].occupied && slots[p.home[t]].timer == t)
  }

  /** Every slot is occupied, free or reserved, and only one of these. */
  ghost predicate PartitionOk(slots: seq<Slot>, p: Places) {
    && (forall i :: 0 <= i < |slots| && slots[i].occupied ==> i !in p.free && i !in p.reserved)
    && (forall i :: 0 <= i < |slots| && !slots[i].occupied ==>
          !slots[i].cancelRequested && (i in p.free) != (i in p.reserved))
    && (forall i :: i in p.reserved ==> i < |slots| && slots[i].generation > 0)
  }

  ghost predicate SlotsOk(slots: seq<Slot>, head: int, next: nat, p: Places) {
    FreeChain(slots, head, p.free) && HomesOk(slots, next, p) && PartitionOk(slots, p)
  }

  ghost function EntryOf(t: nat, slots: seq<Slot>, p: Places): Entry
    requires t in p.home && t in p.deadlines && p.home[t] < |slots|
  {
    Entry(p.deadlines[t], t, p.home[t], slots[p.home[t]].generation)
  }

  ghost predicate EntryOk(e: Entry, slots: seq<Slot>, next: nat, p: Places) {
    && e.sequence < next
    && e.slot < |slots| && 0 < e.generation <= slots[e.slot].generation
    && e.sequence in p.deadlines && p.deadlines[e.sequence] == e.deadline
    && (HasOccupied(slots, e.slot, e.generation) ==> slots[e.slot].timer == e.sequence)
    && (e.slot in p.reserved ==> e.generation < slots[e.slot].generation)
  }

  ghost predicate EntriesOk(slots: seq<Slot>, next: nat, p: Places) {
    && (forall e :: e in p.entries ==> EntryOk(e, slots, next, p))
    && (forall e, f :: e in p.entries && f in p.entries && e.sequence == f.sequence ==> e == f)
    && (forall t :: t in p.home ==> t in p.deadlines && p.home[t] < |slots|)
    && (forall t :: t in p.home && t !in p.unqueued && !slots[p.home[t]].cancelRequested ==>
          EntryOf(t, slots, p) in p.entries)
    && (forall t :: t in p.deadlines ==> t < next)
  }

  ghost predicate FatesOk(h: History, next: nat, p: Places) {
    && (forall k :: 0 <= k < |h.log| ==> h.log[k].timer in h.ended && h.ended[h.log[k].timer] == k)
    && (forall t :: t in h.ended ==>
          t < next && t !in p.home && h.ended[t] < |h.log| && h.log[h.ended[t]].timer == t)
    && (forall t :: 0 <= t < next ==> t in p.home || t in h.ended)
  }

  /** Activity words and withdrawals agree; expiry is delivered only to timers that
      nothing withdrew, except through the race window. */
  ghost predicate WithdrawalsOk(slots: seq<Slot>, active: seq<nat>, p: Places, h: History) {
    && |active| == |slots|
    && (forall i :: 0 <= i < |slots| ==>
          active[i] == 0 || (slots[i].occupied && active[i] == slots[i].generation))
    && h.raced <= h.silenced <= h.withdrawn
    && (forall t :: t in h.withdrawn ==> t in p.home || t in h.ended)
    && (forall t :: t in p.home ==>
          && p.home[t] < |slots|
          && (t in h.withdrawn <==> slots[p.home[t]].cancelRequested || active[p.home[t]] == 0)
          && (t in h.silenced <==> active[p.home[t]] == 0)
          && (t in h.raced ==> h.window == Some(t)))
    && (forall t :: t in h.ended ==> h.ended[t] < |h.log| && FateOk(h.log[h.ended[t]], t, h))
    && (h.window.Some? ==> h.window.value in p.home)
  }

  ghost predicate FateOk(fate: Fate, t: nat, h: History) {
    && (fate == Delivered(t, Expired) ==> t !in h.withdrawn || t in h.raced)
    && (fate != Delivered(t, Expired) ==> t in h.withdrawn)
    && (t in h.silenced ==> (t in h.raced <==> fate.Delivered?))
    && (fate.Destroyed? ==> t in h.dropped || t in h.silenced)
  }

  ghost predicate HeapOk(timers: seq<Entry>, entries: set<Entry>) {
    IsHeap(timers) && multiset(timers) == multiset(entries)
  }

  /** The stale counter counts the dead entries, while the queue runs. */
  ghost predicate CountOk(stopping: bool, count: int, entries: set<Entry>, slots: seq<Slot>) {
    !stopping ==> count == |Dead(entries, slots)|
  }

  ghost predicate StopOk(stopping: bool, timers: seq<Entry>, unqueued: set<nat>, home: map<nat, nat>) {
    stopping ==> timers == [] && unqueued == home.Keys
  }

  ghost predicate WaitsOk(stopping: bool, dispatching: bool, armed: bool, timerGeneration: nat, waits: set<nat>) {
    && (stopping || dispatching ==> !armed)
    && (armed <==> timerGeneration in waits)
    && (forall w :: w in waits ==> w <= timerGeneration)
  }

  /** Timers scheduled during a round are due no earlier than its snapshot. */
  ghost predicate RoundOk(dispatching: bool, roundDeadline: int, next: nat, deadlines: map<nat, int>, limit: nat) {
    limit <= next &&
    (dispatching ==> forall t :: t in deadlines && t >= limit ==> deadlines[t] >= roundDeadline)
  }

  /** A flagged cancellation still has its handler queued. */
  ghost predicate NoticesOk(stopping: bool, slots: seq<Slot>, posted: seq<Posted>) {
    !stopping ==>
      forall i :: 0 <= i < |slots| && slots[i].cancelRequested ==> Posted(i, slots[i].generation, true) in posted
  }

  ghost predicate TopIsLive(exempt: bool, timers: seq<Entry>, slots: seq<Slot>) {
    exempt || timers == [] || Live(slots, timers[0])
  }

  /** Some armed wait ends no later than any live deadline. */
  ghost predicate WaitCovers(exempt: bool, entries: set<Entry>, slots: seq<Slot>, armed: bool, armedDeadline: int) {
    exempt || forall e :: e in entries && Live(slots, e) ==> armed && armedDeadline <= e.deadline
  }

  lemma PrunedTopIsLive(exempt: bool, timers: seq<Entry>, slots: seq<Slot>)
    requires exempt || timers == [] || Live(slots, timers[0])
    ensures TopIsLive(exempt, timers, slots)
  {
  }

  /** Releasing a slot whose entry is dead already, or is then pruned, keeps both. */
  lemma WithdrawalKeepsCover(exempt: bool, timers: seq<Entry>, entries: set<Entry>, slots: seq<Slot>, armed: bool,
                             deadline: int,
                             timers': seq<Entry>, entries': set<Entry>, slots': seq<Slot>, armed': bool, i: nat)
    requires i < |slots| == |slots'| && slots' == slots[i := slots'[i]]
    requires !slots'[i].occupied || slots'[i].cancelRequested
    requires entries' <= entries && HeapOk(timers', entries')
    requires armed' == armed || timers' == []
    ensures WaitCovers(exempt, entries, slots, armed, deadline) ==>
            WaitCovers(exempt, entries', slots', armed', deadline)
    ensures timers' == timers && slots[i].cancelRequested && TopIsLive(exempt, timers, slots) ==>
              TopIsLive(exempt, timers', slots')
    ensures exempt ==> TopIsLive(exempt, timers', slots')
  {
    SetAndSequenceAgree(timers', entries');
    forall e | Live(slots', e) ensures Live(slots, e) {}
  }

  // ----- what user code leaves in place

  datatype Snapshot = Snapshot(h: History, p: Places, next: nat, slots: seq<Slot>, posted: seq<Posted>,
                               stopping: bool, dispatching: bool, roundDeadline: int, topLive: bool, covered: bool)

  ghost predicate IsExpiry(fate: Fate) {
    fate.Delivered? && fate.outcome == Expired
  }

  ghost predicate HistoryGrows(a: History, b: History) {
    && a.log <= b.log
    && (forall t :: t in a.ended ==> t in b.ended && b.ended[t] == a.ended[t])
    && a.withdrawn <= b.withdrawn && a.dropped <= b.dropped && a.silenced <= b.silenced && a.raced <= b.raced
  }

  /** Pending timers stay where they are, new ones get new sequence numbers, and a
      slot's next occupant gets a new generation. */
  ghost predicate PlacesEvolve(a: Snapshot, b: Snapshot) {
    && (forall t :: t in a.p.deadlines ==> t in b.p.deadlines && b.p.deadlines[t] == a.p.deadlines[t])
    && (forall t :: t in b.p.deadlines && t !in a.p.deadlines ==> t >= a.next)
    && (forall t :: t in b.p.home && t < a.next ==> t in a.p.home && b.p.home[t] == a.p.home[t])
    && (forall e :: e in b.p.entries ==> e in a.p.entries || e.sequence >= a.next)
    && b.p.roundLimit == a.p.roundLimit && b.p.reserved == a.p.reserved
  }

  /** A slot and generation that no longer denote a pending timer never denote one again. */
  ghost predicate HandlesHold(a: seq<Slot>, b: seq<Slot>) {
    && |a| <= |b|
    && forall i :: 0 <= i < |a| ==>
         && a[i].generation <= b[i].generation
         && (b[i].occupied && b[i].generation == a[i].generation ==> a[i].occupied && b[i].timer == a[i].timer)
  }

  lemma HandlesHoldFurther(a: seq<Slot>, b: seq<Slot>, c: seq<Slot>)
    requires HandlesHold(a, b) && HandlesHold(b, c)
    ensures HandlesHold(a, c)
  {
  }

  lemma SameHandles(a: seq<Slot>)
    ensures HandlesHold(a, a)
  {
  }

  ghost predicate SlotsEvolve(a: Snapshot, b: Snapshot) {
    && |a.slots| <= |b.slots| && HandlesHold(a.slots, b.slots)
    && (forall i :: 0 <= i < |a.slots| ==> a.slots[i].generation <= b.slots[i].generation)
    && (forall i :: 0 <= i < |a.slots| && i in a.p.reserved ==> b.slots[i] == a.slots[i])
    && (forall i :: 0 <= i < |a.slots| && b.slots[i].occupied ==>
          if b.slots[i].timer < a.next then b.slots[i].generation == a.slots[i].generation
          else b.slots[i].generation > a.slots[i].generation)
  }

  /** What holds of any two moments with only user code between them. */
  ghost predicate Evolves(a: Snapshot, b: Snapshot) {
    && HistoryGrows(a.h, b.h)
    && (forall k :: |a.h.log| <= k < |b.h.log| ==> !IsExpiry(b.h.log[k]))
    && a.next <= b.next && a.posted <= b.posted
    && (a.stopping ==> b.stopping && b.next == a.next && |b.slots| == |a.slots|)
    && b.dispatching == a.dispatching && b.roundDeadline == a.roundDeadline
    && PlacesEvolve(a, b) && SlotsEvolve(a, b)
    && (a.topLive ==> b.topLive) && (a.covered ==> b.covered)
  }

  /** ... and with no stop_timers sweep left half done. */
  ghost predicate Completes(a: Snapshot, b: Snapshot) {
    Evolves(a, b) && (!a.stopping && b.stopping ==> b.p.home == map[])
  }

  lemma HistoryGrowsFurther(a: History, b: History, c: History)
    requires HistoryGrows(a, b) && HistoryGrows(b, c)
    ensures HistoryGrows(a, c)
  {
  }

  lemma PlacesEvolveFurther(a: Snapshot, b: Snapshot, c: Snapshot)
    requires PlacesEvolve(a, b) && PlacesEvolve(b, c) && a.next <= b.next
    ensures PlacesEvolve(a, c)
  {
  }

  lemma SlotsEvolveFurther(a: Snapshot, b: Snapshot, c: Snapshot)
    requires SlotsEvolve(a, b) && SlotsEvolve(b, c) && a.next <= b.next
    requires b.p.reserved == a.p.reserved
    requires HomesOk(c.slots, c.next, c.p) && HomesOk(b.slots, b.next, b.p) && PlacesEvolve(b, c)
    ensures SlotsEvolve(a, c)
  {
    HandlesHoldFurther(a.slots, b.slots, c.slots);
    forall i | 0 <= i < |a.slots| && c.slots[i].occupied
      ensures if c.slots[i].timer < a.next then c.slots[i].generation == a.slots[i].generation
              else c.slots[i].generation > a.slots[i].generation
    {
      var t := c.slots[i].timer;
      if t < b.next {
        assert t in c.p.home && t in b.p.home && b.p.home[t] == i;
      }
    }
  }

  lemma EvolvesFurther(a: Snapshot, b: Snapshot, c: Snapshot)
    requires Evolves(a, b) && Evolves(b, c)
    requires HomesOk(c.slots, c.next, c.p) && HomesOk(b.slots, b.next, b.p)
    ensures Evolves(a, c)
    ensures Completes(a, b) && Completes(b, c) ==> Completes(a, c)
  {
    hide HistoryGrows, PlacesEvolve, SlotsEvolve, HomesOk;
    HistoryGrowsFurther(a.h, b.h, c.h);
    PlacesEvolveFurther(a, b, c);
    assert b.p.reserved == a.p.reserved by { KeepsReserved(a, b); }
    SlotsEvolveFurther(a, b, c);
    LogExtends(a.h, b.h, c.h);
    if !a.stopping && b.stopping && b.p.home == map[] {
      NoNewHomes(b, c);
    }
  }

  lemma KeepsReserved(a: Snapshot, b: Snapshot)
    requires PlacesEvolve(a, b)
    ensures b.p.reserved == a.p.reserved
  {
  }

  lemma LogExtends(a: History, b: History, c: History)
    requires HistoryGrows(a, b) && HistoryGrows(b, c)
    requires forall k :: |a.log| <= k < |b.log| ==> !IsExpiry(b.log[k])
    requires forall k :: |b.log| <= k < |c.log| ==> !IsExpiry(c.log[k])
    ensures forall k :: |a.log| <= k < |c.log| ==> !IsExpiry(c.log[k])
  {
  }

  lemma NoNewHomes(b: Snapshot, c: Snapshot)
    requires PlacesEvolve(b, c) && HomesOk(c.slots, c.next, c.p) && c.next == b.next && b.p.home == map[]
    ensures c.p.home == map[]
  {
    assert forall t :: t in c.p.home ==> t in b.p.home;
    assert c.p.home.Keys == {};
  }

  lemma Unchanged(a: Snapshot)
    requires HomesOk(a.slots, a.next, a.p)
    ensures Completes(a, a)
  {
  }

  /** Interference and the bookkeeping of the race window change nothing else. */
  ghost predicate Interferes(a: Snapshot, b: Snapshot) {
    && b == a.(h := b.h, posted := b.posted)
    && HistoryGrows(a.h, b.h) && b.h.log == a.h.log && b.h.ended == a.h.ended && a.posted <= b.posted
  }

  lemma InterferenceEvolves(a: Snapshot, b: Snapshot)
    requires Interferes(a, b)
    requires HomesOk(a.slots, a.next, a.p)
    ensures Completes(a, b)
  {
  }
}
