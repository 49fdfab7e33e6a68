/** Each single change of the timer queue keeps its invariants: reserving, publishing,
    withdrawing, pruning and releasing (ruvia-core/src/worker_timers.cpp). */
module TimerSteps {
  import opened Sequences
  import opened TimerHeap
  import opened TimerState
  import opened Wrappers

  // ----- lemmas about the heap's contents

  /** Slot i stops being live: exactly its own entry becomes dead. */
  lemma OneMoreDead(slots: seq<Slot>, slots': seq<Slot>, i: nat, next: nat, p: Places)
    requires i < |slots| == |slots'| && slots' == slots[i := slots'[i]]
    requires slots[i].occupied && !slots[i].cancelRequested
    requires slots[i].timer in p.home && p.home[slots[i].timer] == i && slots[i].timer !in p.unqueued
    requires slots[i].generation > 0 && slots'[i].generation == slots[i].generation
    requires !slots'[i].occupied || slots'[i].cancelRequested
    requires EntriesOk(slots, next, p)
    ensures |Dead(p.entries, slots')| == |Dead(p.entries, slots)| + 1
  {
    var e := EntryOf(slots[i].timer, slots, p);
    assert e in p.entries && Live(slots, e) && !Live(slots', e);
    forall f | f in p.entries && f != e ensures Live(slots', f) == Live(slots, f) {
      assert EntryOk(f, slots, next, p);
    }
    assert Dead(p.entries, slots') == Dead(p.entries, slots) + {e};
  }

  lemma AllDead(entries: set<Entry>, slots: seq<Slot>)
    requires |Dead(entries, slots)| == |entries|
    ensures forall e :: e in entries ==> !Live(slots, e)
  {
    var d := Dead(entries, slots);
    if d != entries {
      assert d < entries;
      SmallerSet(d, entries);
    }
  }

  lemma SmallerSet(a: set<Entry>, b: set<Entry>)
    requires a < b
    ensures |a| < |b|
  {
    var x :| x in b && x !in a;
    var rest := b - a;
    assert a + rest == b && a !! rest && x in rest;
  }

  function LiveEntries(h: seq<Entry>, slots: seq<Slot>): (r: seq<Entry>)
    ensures forall e :: multiset(r)[e] == if Live(slots, e) then multiset(h)[e] else 0
  {
    if h == [] then [] else
      assert h == [h[0]] + h[1..];
      var rest := LiveEntries(h[1..], slots);
      if Live(slots, h[0]) then [h[0]] + rest else rest
  }

  lemma LiveEntriesContents(h: seq<Entry>, slots: seq<Slot>, entries: set<Entry>)
    requires HeapOk(h, entries)
    ensures multiset(LiveEntries(h, slots)) == multiset(entries - Dead(entries, slots))
  {
  }

  // ----- what foreign threads can change

  ghost predicate Interfered(active: seq<nat>, posted: seq<Posted>, h: History,
                             active': seq<nat>, posted': seq<Posted>, h': History) {
    && |active'| == |active| && posted <= posted'
    && (forall i :: 0 <= i < |active| ==> active'[i] == active[i] || active'[i] == 0)
    && h'.log == h.log && h'.ended == h.ended && h'.window == h.window
    && h.withdrawn <= h'.withdrawn && h'.dropped == h.dropped && h.silenced <= h'.silenced && h.raced <= h'.raced
    && (forall t :: t in h'.withdrawn ==> t in h.withdrawn || t in h'.silenced)
    && (forall t :: t in h'.silenced && t !in h.silenced && h.window == Some(t) ==> t in h'.raced)
  }

  lemma NoInterference(active: seq<nat>, posted: seq<Posted>, h: History)
    ensures Interfered(active, posted, h, active, posted, h)
  {
  }

  lemma InterferenceComposes(a0: seq<nat>, q0: seq<Posted>, h0: History, a1: seq<nat>, q1: seq<Posted>, h1: History,
                             a2: seq<nat>, q2: seq<Posted>, h2: History)
    requires Interfered(a0, q0, h0, a1, q1, h1) && Interfered(a1, q1, h1, a2, q2, h2)
    ensures Interfered(a0, q0, h0, a2, q2, h2)
  {
  }

  /** Two stretches of interference around the worker's load. */
  lemma InterferenceGrows(a0: seq<nat>, q0: seq<Posted>, h0: History, a1: seq<nat>, q1: seq<Posted>, h1: History,
                          loaded: History, a2: seq<nat>, q2: seq<Posted>, h2: History)
    requires Interfered(a0, q0, h0, a1, q1, h1) && Interfered(a1, q1, loaded, a2, q2, h2)
    requires loaded == h1.(window := loaded.window)
    ensures HistoryGrows(h0, h2) && h2.log == h0.log && h2.ended == h0.ended && h2.window == loaded.window && q0 <= q2
    ensures h0.silenced <= loaded.silenced <= h2.silenced && h0.withdrawn <= loaded.withdrawn
    ensures h2.dropped == h0.dropped
  {
  }

  /** A silent cancellation on another thread, between the worker's load and its store. */
  function LateCancellation(slot: nat, generation: nat): Race {
    Race([], [Deactivate(slot, generation)])
  }

  ghost function Silence(h: History, t: nat): History {
    h.(withdrawn := h.withdrawn + {t}, silenced := h.silenced + {t},
       raced := if h.window == Some(t) then h.raced + {t} else h.raced)
  }

  lemma DeactivationIsWithdrawal(slots: seq<Slot>, active: seq<nat>, next: nat, head: int, p: Places, h: History,
                                 i: nat)
    requires WithdrawalsOk(slots, active, p, h) && SlotsOk(slots, head, next, p) && FatesOk(h, next, p)
    requires i < |active| == |slots| && active[i] != 0
    ensures WithdrawalsOk(slots, active[i := 0], p, Silence(h, slots[i].timer))
  {
    hide FateOk, FreeChain, PartitionOk;
    var t, h' := slots[i].timer, Silence(h, slots[i].timer);
    assert t in p.home && p.home[t] == i;
    forall s | s in h'.ended ensures h'.ended[s] < |h'.log| && FateOk(h'.log[h'.ended[s]], s, h') {
      SilenceSparesOthers(h.log[h.ended[s]], s, h, t);
    }
  }

  lemma SilenceSparesOthers(fate: Fate, s: nat, h: History, t: nat)
    requires FateOk(fate, s, h) && s != t
    ensures FateOk(fate, s, Silence(h, t))
  {
  }

  lemma DeactivationInterferes(active: seq<nat>, posted: seq<Posted>, h: History, next: nat, p: Places, i: nat, t: nat)
    requires FatesOk(h, next, p) && i < |active|
    ensures FatesOk(Silence(h, t), next, p)
    ensures Interfered(active, posted, h, active[i := 0], posted, Silence(h, t))
  {
  }

  /** A loaded activity word means that nothing has withdrawn the timer yet, except
      for a notified cancellation that is still to be delivered. */
  lemma LoadedIsNotSilenced(slots: seq<Slot>, active: seq<nat>, head: int, next: nat, p: Places, h: History, i: nat)
    requires SlotsOk(slots, head, next, p) && WithdrawalsOk(slots, active, p, h)
    requires i < |slots| == |active| && slots[i].occupied && h.window == None && FatesOk(h, next, p)
    ensures WithdrawalsOk(slots, active, p, h.(window := Some(slots[i].timer)))
    ensures FatesOk(h.(window := Some(slots[i].timer)), next, p)
    ensures active[i] != 0 <==> slots[i].timer !in h.silenced
    ensures active[i] == 0 || active[i] == slots[i].generation
    ensures active[i] != 0 && !slots[i].cancelRequested ==> slots[i].timer !in h.withdrawn
  {
    forall s | s in h.ended ensures FateOk(h.log[h.ended[s]], s, h.(window := Some(slots[i].timer))) {}
  }

  lemma RaceOutcome(slots: seq<Slot>, head: int, next: nat, active: seq<nat>, p: Places, h: History, h': History,
                    active0: seq<nat>, posted0: seq<Posted>, posted: seq<Posted>, i: nat)
    requires SlotsOk(slots, head, next, p) && WithdrawalsOk(slots, active, p, h')
    requires Interfered(active0, posted0, h, active, posted, h')
    requires i < |slots| && slots[i].occupied
    ensures var t := slots[i].timer;
      && (t in h'.raced ==> h.window == Some(t))
      && (h.window == Some(t) && t !in h.silenced && t in h'.silenced ==> t in h'.raced)
      && (h.window == Some(t) && t !in h.withdrawn && t !in h.silenced && t in h'.withdrawn ==> t in h'.raced)
      && (t in h.silenced ==> t in h'.silenced)
  {
    assert slots[i].timer in p.home;
  }

  lemma ActiveIsOccupied(slots: seq<Slot>, active: seq<nat>, p: Places, h: History, i: nat)
    requires WithdrawalsOk(slots, active, p, h) && i < |active| && active[i] != 0
    ensures i < |slots| && slots[i].occupied && slots[i].generation == active[i]
  {
  }

  lemma FlaggedIsWithdrawn(slots: seq<Slot>, active: seq<nat>, head: int, next: nat, p: Places, h: History, i: nat)
    requires SlotsOk(slots, head, next, p) && WithdrawalsOk(slots, active, p, h)
    requires i < |slots| && slots[i].occupied
    ensures slots[i].cancelRequested ==> slots[i].timer in h.withdrawn
  {
    assert slots[i].timer in p.home;
  }

  predicate Undisturbed(request: Command) {
    request.Schedule? && request.onMove == Quiet && !request.pushFails && !request.armFails
  }

  predicate OnePost(steps: seq<ForeignStep>) {
    |steps| == 1 && steps[0].Post?
  }

  /** The timer was withdrawn: its completion got the cancelled outcome if it was to be notified and
      nobody had silenced it in time, and was destroyed otherwise. */
  ghost predicate Withdrawn(h: History, t: nat, notify: bool) {
    && t in h.ended && t in h.withdrawn && h.ended[t] < |h.log|
    && h.log[h.ended[t]] == (if notify && (t !in h.silenced || t in h.raced) then Delivered(t, Cancelled)
                             else Destroyed(t))
  }

  lemma NoFateBefore(a: History, b: History, next: nat, p: Places, t: nat)
    requires FatesOk(a, next, p) && a.log <= b.log && t in p.home
    ensures forall k :: 0 <= k < |b.log| && b.log[k].timer == t ==> |a.log| <= k
  {
    assert forall k :: 0 <= k < |a.log| ==> a.log[k].timer != t;
    assert forall k :: 0 <= k < |a.log| ==> b.log[k] == a.log[k];
  }

  lemma WithdrawnStays(a: History, b: History, t: nat, notify: bool, next: nat, p: Places, slots: seq<Slot>,
                       active: seq<nat>)
    requires Withdrawn(a, t, notify) && HistoryGrows(a, b) && FatesOk(b, next, p) && WithdrawalsOk(slots, active, p, b)
    ensures Withdrawn(b, t, notify)
  {
    assert FateOk(b.log[b.ended[t]], t, b);
  }

  /** A foreign silent cancellation of the timer succeeded, and its completion got the
      outcome all the same. */
  ghost predicate LostRace(h: History, t: nat, outcome: Outcome) {
    t in h.silenced && t in h.raced && Delivered(t, outcome) in h.log
  }

  lemma LostStaysLost(a: History, b: History, t: nat, outcome: Outcome)
    requires LostRace(a, t, outcome) && HistoryGrows(a, b)
    ensures LostRace(b, t, outcome)
  {
    var k :| 0 <= k < |a.log| && a.log[k] == Delivered(t, outcome);
    assert b.log[k] == a.log[k];
  }

  // ----- asking for a silent withdrawal

  ghost function Drop(h: History, t: nat): History {
    h.(dropped := h.dropped + {t})
  }

  lemma DropKeeps(slots: seq<Slot>, active: seq<nat>, next: nat, p: Places, h: History, t: nat)
    requires FatesOk(h, next, p) && WithdrawalsOk(slots, active, p, h)
    ensures FatesOk(Drop(h, t), next, p) && WithdrawalsOk(slots, active, p, Drop(h, t))
    ensures HistoryGrows(h, Drop(h, t)) && Drop(h, t).window == h.window
  {
    forall s | s in h.ended ensures FateOk(h.log[h.ended[s]], s, Drop(h, t)) {
      assert FateOk(h.log[h.ended[s]], s, h);
    }
  }

  lemma DropEvolves(a: Snapshot, b: Snapshot, t: nat)
    requires b == a.(h := Drop(a.h, t)) && HomesOk(a.slots, a.next, a.p)
    ensures Completes(a, b)
  {
  }

  // ----- flagging a notified cancellation

  function Flagged(slot: Slot): Slot {
    slot.(cancelRequested := true)
  }

  ghost function Flag(h: History, t: nat): History {
    h.(withdrawn := h.withdrawn + {t})
  }

  lemma FlagKeepsStructure(slots: seq<Slot>, active: seq<nat>, head: int, next: nat, p: Places, h: History, i: nat)
    requires SlotsOk(slots, head, next, p) && FatesOk(h, next, p) && WithdrawalsOk(slots, active, p, h)
    requires i < |slots| && slots[i].occupied
    ensures SlotsOk(slots[i := Flagged(slots[i])], head, next, p)
    ensures FatesOk(Flag(h, slots[i].timer), next, p)
    ensures WithdrawalsOk(slots[i := Flagged(slots[i])], active, p, Flag(h, slots[i].timer))
  {
    hide WithdrawalsOk, FatesOk, HomesOk, PartitionOk, FreeChain, Flag;
    PendingTimer(slots, head, next, p, h, i);
    FlagKeepsChain(slots, head, p.free, i);
    FlagKeepsHomes(slots, next, p, i);
    FlagKeepsFates(h, next, p, slots[i].timer);
    FlagKeepsWithdrawals(slots, active, next, p, h, i);
  }

  lemma FlagKeepsHomes(slots: seq<Slot>, next: nat, p: Places, i: nat)
    requires HomesOk(slots, next, p) && PartitionOk(slots, p) && i < |slots| && slots[i].occupied
    ensures HomesOk(slots[i := Flagged(slots[i])], next, p) && PartitionOk(slots[i := Flagged(slots[i])], p)
  {
  }

  lemma FlagKeepsFates(h: History, next: nat, p: Places, t: nat)
    requires FatesOk(h, next, p)
    ensures FatesOk(Flag(h, t), next, p)
  {
  }

  lemma FlagKeepsWithdrawals(slots: seq<Slot>, active: seq<nat>, next: nat, p: Places, h: History, i: nat)
    requires WithdrawalsOk(slots, active, p, h) && HomesOk(slots, next, p)
    requires i < |slots| && slots[i].occupied && slots[i].timer in p.home && slots[i].timer !in h.ended
    ensures WithdrawalsOk(slots[i := Flagged(slots[i])], active, p, Flag(h, slots[i].timer))
  {
    var t, h' := slots[i].timer, Flag(h, slots[i].timer);
    forall s | s in h'.ended ensures FateOk(h'.log[h'.ended[s]], s, h') {
      assert s != t;
    }
  }

  lemma FlagKeepsChain(slots: seq<Slot>, head: int, free: seq<nat>, i: nat)
    requires FreeChain(slots, head, free) && i < |slots|
    ensures FreeChain(slots[i := Flagged(slots[i])], head, free)
  {
  }

  lemma FlagCountsDead(slots: seq<Slot>, next: nat, p: Places, i: nat, stopping: bool, count: nat)
    requires HomesOk(slots, next, p) && EntriesOk(slots, next, p) && CountOk(stopping, count, p.entries, slots)
    requires i < |slots| && slots[i].occupied && !slots[i].cancelRequested && (!stopping ==> p.unqueued == {})
    ensures EntriesOk(slots[i := Flagged(slots[i])], next, p)
    ensures CountOk(stopping, count + if stopping then 0 else 1, p.entries, slots[i := Flagged(slots[i])])
  {
    var slots' := slots[i := Flagged(slots[i])];
    forall e | e in p.entries ensures EntryOk(e, slots', next, p) {
      assert EntryOk(e, slots, next, p);
    }
    forall t | t in p.home && t !in p.unqueued && !slots'[p.home[t]].cancelRequested
      ensures EntryOf(t, slots', p) in p.entries
    {
      assert EntryOf(t, slots', p) == EntryOf(t, slots, p);
    }
    if !stopping {
      OneMoreDead(slots, slots', i, next, p);
    }
  }

  lemma FlagNotices(stopping: bool, slots: seq<Slot>, posted: seq<Posted>, i: nat)
    requires NoticesOk(stopping, slots, posted) && i < |slots|
    ensures NoticesOk(stopping, slots[i := Flagged(slots[i])], posted + [Posted(i, slots[i].generation, true)])
  {
    var posted' := posted + [Posted(i, slots[i].generation, true)];
    assert posted'[|posted|] == Posted(i, slots[i].generation, true);
    assert forall x :: x in posted ==> x in posted';
  }

  lemma FlagEvolves(a: Snapshot, b: Snapshot, i: nat)
    requires i < |a.slots| && a.slots[i].occupied && HomesOk(a.slots, a.next, a.p) && PartitionOk(a.slots, a.p)
    requires b == a.(h := Flag(a.h, a.slots[i].timer), slots := a.slots[i := Flagged(a.slots[i])],
                     posted := b.posted, p := a.p.(entries := b.p.entries), topLive := b.topLive, covered := b.covered)
    requires b.p.entries <= a.p.entries && a.posted <= b.posted
    requires (a.topLive ==> b.topLive) && (a.covered ==> b.covered)
    ensures Completes(a, b)
  {
  }

  lemma FlaggedSlot(slot: Slot, h: History, t: nat)
    ensures Flagged(slot).cancelRequested && Flagged(slot).occupied == slot.occupied
    ensures Flagged(slot).generation == slot.generation
    ensures Flag(h, t).window == h.window && Flag(h, t).ended == h.ended
    ensures Flag(h, t) == h.(withdrawn := h.withdrawn + {t}) && Flagged(slot) == slot.(cancelRequested := true)
    ensures Flagged(slot).timer == slot.timer
  {
  }

  // ----- stopping the queue

  lemma StopStructure(slots: seq<Slot>, active: seq<nat>, head: int, next: nat, p: Places, h: History,
                      posted: seq<Posted>)
    requires SlotsOk(slots, head, next, p) && FatesOk(h, next, p) && WithdrawalsOk(slots, active, p, h)
    requires EntriesOk(slots, next, p)
    ensures var p' := p.(entries := {}, unqueued := p.home.Keys);
      SlotsOk(slots, head, next, p') && FatesOk(h, next, p') && WithdrawalsOk(slots, active, p', h)
      && EntriesOk(slots, next, p')
    ensures HeapOk([], {}) && NoticesOk(true, slots, posted)
  {
  }

  lemma StopEvolves(a: Snapshot, b: Snapshot)
    requires HomesOk(a.slots, a.next, a.p)
    requires b == a.(stopping := true, p := a.p.(entries := {}, unqueued := a.p.home.Keys),
                     topLive := b.topLive, covered := b.covered)
    requires b.topLive && b.covered
    ensures Evolves(a, b)
  {
  }

  lemma NothingToCover(timers: seq<Entry>, entries: set<Entry>, slots: seq<Slot>, armed: bool, deadline: int)
    ensures TopIsLive(true, timers, slots) && WaitCovers(true, entries, slots, armed, deadline)
  {
  }

  lemma AllVacated(slots: seq<Slot>, next: nat, p: Places)
    requires HomesOk(slots, next, p) && forall i :: 0 <= i < |slots| ==> !slots[i].occupied
    ensures p.home == map[]
  {
    assert p.home.Keys == {};
  }

  lemma PositiveGeneration(slots: seq<Slot>, next: nat, p: Places, i: nat)
    requires HomesOk(slots, next, p) && i < |slots| && slots[i].occupied
    ensures HasOccupied(slots, i, slots[i].generation)
  {
  }

  /** A stopped queue takes no new occupants. */
  lemma StoppedStaysVacant(a: Snapshot, b: Snapshot)
    requires a.stopping && Evolves(a, b) && HomesOk(a.slots, a.next, a.p) && HomesOk(b.slots, b.next, b.p)
    ensures b.stopping && |b.slots| == |a.slots|
    ensures forall i :: 0 <= i < |a.slots| && !a.slots[i].occupied ==> !b.slots[i].occupied
  {
    hide HistoryGrows, SlotsEvolve;
    forall i | 0 <= i < |a.slots| && b.slots[i].occupied ensures a.slots[i].occupied {
      var t := b.slots[i].timer;
      assert t in b.p.home && t in a.p.home && b.p.home[t] == a.p.home[t];
    }
  }

  // ----- arming the wait

  lemma ArmingEvolves(a: Snapshot, b: Snapshot)
    requires HomesOk(a.slots, a.next, a.p)
    requires b == a.(p := a.p.(entries := b.p.entries), topLive := b.topLive, covered := b.covered)
    requires b.p.entries <= a.p.entries && b.topLive
    ensures Completes(a.(covered := false), b)
  {
  }

  lemma EmptyHeapIsCovered(timers: seq<Entry>, entries: set<Entry>, slots: seq<Slot>, armed: bool, deadline: int)
    requires HeapOk(timers, entries) && timers == []
    ensures WaitCovers(false, entries, slots, armed, deadline)
  {
    SetAndSequenceAgree(timers, entries);
  }

  lemma FrontCovers(timers: seq<Entry>, entries: set<Entry>, slots: seq<Slot>)
    requires HeapOk(timers, entries) && timers != []
    ensures WaitCovers(false, entries, slots, true, timers[0].deadline)
  {
    FrontPrecedesAll(timers, entries);
  }

  // ----- reserving and publishing a slot

  const FRESH_SLOT := Slot(0, NO_SLOT, false, false, 0)

  function Reserve(slot: Slot): Slot {
    slot.(generation := slot.generation + 1, nextFree := NO_SLOT, cancelRequested := false)
  }

  ghost function WithReserved(slots: seq<Slot>, i: nat): seq<Slot>
    requires i <= |slots|
  {
    if i < |slots| then slots[i := Reserve(slots[i])] else slots + [Reserve(FRESH_SLOT)]
  }

  ghost function Take(p: Places, i: nat): Places {
    p.(free := if p.free == [] then [] else p.free[1..], reserved := p.reserved + {i})
  }

  /** The slot schedule_timer takes: the head of the free chain, or a new one. */
  ghost predicate NextSlot(slots: seq<Slot>, p: Places, i: nat) {
    if p.free == [] then i == |slots| else i == p.free[0]
  }

  lemma ReserveKeepsSlots(slots: seq<Slot>, head: int, next: nat, p: Places, i: nat)
    requires SlotsOk(slots, head, next, p) && NextSlot(slots, p, i)
    ensures i <= |slots| && i !in p.reserved && (i < |slots| ==> !slots[i].occupied && i in p.free)
    ensures SlotsOk(WithReserved(slots, i), if i < |slots| then slots[i].nextFree else head, next, Take(p, i))
  {
    hide HomesOk;
    ReserveKeepsChain(slots, head, p, i);
    assert i < |slots| ==> i in p.free;
    ReserveKeepsPartition(slots, head, p, i);
    ReserveKeepsHomes(slots, next, p, i);
  }

  lemma ReserveKeepsChain(slots: seq<Slot>, head: int, p: Places, i: nat)
    requires FreeChain(slots, head, p.free) && NextSlot(slots, p, i)
    ensures i <= |slots|
    ensures FreeChain(WithReserved(slots, i), if i < |slots| then slots[i].nextFree else head, Take(p, i).free)
  {
    var slots', free' := WithReserved(slots, i), Take(p, i).free;
    if p.free != [] {
      assert slots[i].nextFree == Successor(p.free, 0);
      forall k | 0 <= k < |free'| ensures slots'[free'[k]].nextFree == Successor(free', k) {
        assert slots[p.free[k + 1]].nextFree == Successor(p.free, k + 1);
      }
    }
  }

  lemma HeadLeavesChain(slots: seq<Slot>, head: int, free: seq<nat>)
    requires FreeChain(slots, head, free) && free != []
    ensures free[0] < |slots| && free[0] !in free[1..]
    ensures forall x :: x in free <==> x == free[0] || x in free[1..]
  {
    assert free == [free[0]] + free[1..];
  }

  lemma ReserveKeepsPartition(slots: seq<Slot>, head: int, p: Places, i: nat)
    requires PartitionOk(slots, p) && FreeChain(slots, head, p.free) && NextSlot(slots, p, i)
    ensures i <= |slots| && i !in p.reserved
    ensures PartitionOk(WithReserved(slots, i), Take(p, i))
  {
    hide FreeChain;
    if p.free != [] {
      HeadLeavesChain(slots, head, p.free);
      assert i in p.free;
      forall k | 0 <= k < |slots| && !slots[k].occupied && k != i
        ensures (k in Take(p, i).free) != (k in Take(p, i).reserved)
      {
        assert k in p.free <==> k in p.free[1..];
      }
    }
  }

  lemma ReserveKeepsHomes(slots: seq<Slot>, next: nat, p: Places, i: nat)
    requires HomesOk(slots, next, p) && i <= |slots| && (i < |slots| ==> !slots[i].occupied)
    ensures HomesOk(WithReserved(slots, i), next, Take(p, i))
  {
  }

  lemma ReserveKeepsEntries(slots: seq<Slot>, head: int, next: nat, p: Places, i: nat)
    requires SlotsOk(slots, head, next, p) && EntriesOk(slots, next, p)
    requires i <= |slots| && (i < |slots| ==> !slots[i].occupied)
    ensures EntriesOk(WithReserved(slots, i), next, Take(p, i))
    ensures forall e :: e in p.entries ==> Live(WithReserved(slots, i), e) == Live(slots, e)
    ensures Dead(p.entries, WithReserved(slots, i)) == Dead(p.entries, slots)
  {
    var slots', p' := WithReserved(slots, i), Take(p, i);
    forall e | e in p.entries ensures EntryOk(e, slots', next, p') && Live(slots', e) == Live(slots, e) {
      assert EntryOk(e, slots, next, p);
    }
    forall t | t in p'.home && t !in p'.unqueued && !slots'[p'.home[t]].cancelRequested
      ensures EntryOf(t, slots', p') in p'.entries
    {
      assert EntryOf(t, slots', p') == EntryOf(t, slots, p);
    }
  }

  lemma ReserveKeepsFates(slots: seq<Slot>, next: nat, p: Places, h: History, i: nat, stopping: bool,
                          posted: seq<Posted>)
    requires FatesOk(h, next, p) && NoticesOk(stopping, slots, posted)
    requires i <= |slots| && (i < |slots| ==> !slots[i].occupied)
    ensures FatesOk(h, next, Take(p, i)) && NoticesOk(stopping, WithReserved(slots, i), posted)
  {
  }

  lemma ReserveKeepsWithdrawals(slots: seq<Slot>, active: seq<nat>, next: nat, p: Places, h: History, i: nat)
    requires HomesOk(slots, next, p) && WithdrawalsOk(slots, active, p, h)
    requires i <= |slots| && (i < |slots| ==> !slots[i].occupied)
    ensures WithdrawalsOk(WithReserved(slots, i), if i < |slots| then active else active + [0], Take(p, i), h)
  {
    hide FateOk;
    forall t | t in p.home ensures p.home[t] != i {}
  }

  /** Cover depends on the slots only through which entries are live. */
  lemma SameCover(exempt: bool, timers: seq<Entry>, p: Places, slots: seq<Slot>, slots': seq<Slot>, armed: bool,
                  deadline: int)
    requires HeapOk(timers, p.entries)
    requires forall e :: e in p.entries ==> Live(slots', e) == Live(slots, e)
    ensures TopIsLive(exempt, timers, slots') == TopIsLive(exempt, timers, slots)
    ensures WaitCovers(exempt, p.entries, slots', armed, deadline)
            == WaitCovers(exempt, p.entries, slots, armed, deadline)
  {
    hide Live;
    if timers != [] { FrontIsEntry(timers, p.entries); }
  }

  ghost predicate Reserves(a: Snapshot, b: Snapshot, i: nat) {
    && i !in a.p.reserved && i <= |a.slots| && (i < |a.slots| ==> !a.slots[i].occupied)
    && b == a.(slots := WithReserved(a.slots, i), p := Take(a.p, i))
  }

  function Occupy(slot: Slot, t: nat): Slot {
    slot.(occupied := true, timer := t)
  }

  /** The reserved slot i becomes timer t's; its entry is still to be pushed. */
  ghost function Settle(p: Places, i: nat, t: nat, deadline: int): Places {
    p.(home := p.home[t := i], deadlines := p.deadlines[t := deadline], unqueued := p.unqueued + {t},
       reserved := p.reserved - {i})
  }

  lemma OccupyKeepsSlots(slots: seq<Slot>, head: int, next: nat, p: Places, i: nat, deadline: int)
    requires SlotsOk(slots, head, next, p) && i in p.reserved && i < |slots| && !slots[i].occupied
    ensures SlotsOk(slots[i := Occupy(slots[i], next)], head, next + 1, Settle(p, i, next, deadline))
  {
    OccupyKeepsChain(slots, head, next, p, i, deadline);
    OccupyKeepsHomes(slots, next, p, i, deadline);
    OccupyKeepsPartition(slots, next, p, i, deadline);
  }

  lemma OccupyKeepsChain(slots: seq<Slot>, head: int, next: nat, p: Places, i: nat, deadline: int)
    requires FreeChain(slots, head, p.free) && i < |slots|
    ensures FreeChain(slots[i := Occupy(slots[i], next)], head, Settle(p, i, next, deadline).free)
  {
  }

  lemma OccupyKeepsHomes(slots: seq<Slot>, next: nat, p: Places, i: nat, deadline: int)
    requires HomesOk(slots, next, p) && PartitionOk(slots, p) && i in p.reserved && i < |slots| && !slots[i].occupied
    ensures HomesOk(slots[i := Occupy(slots[i], next)], next + 1, Settle(p, i, next, deadline))
  {
  }

  lemma OccupyKeepsPartition(slots: seq<Slot>, next: nat, p: Places, i: nat, deadline: int)
    requires PartitionOk(slots, p) && i in p.reserved && i < |slots| && !slots[i].occupied
    ensures PartitionOk(slots[i := Occupy(slots[i], next)], Settle(p, i, next, deadline))
  {
    assert i !in p.free;
  }

  lemma OccupyKeepsFates(slots: seq<Slot>, active: seq<nat>, next: nat, p: Places, h: History, i: nat, deadline: int)
    requires HomesOk(slots, next, p) && FatesOk(h, next, p) && WithdrawalsOk(slots, active, p, h)
    requires i < |slots| && !slots[i].occupied && !slots[i].cancelRequested && slots[i].generation > 0
             && h.window == None
    ensures FatesOk(h, next + 1, Settle(p, i, next, deadline))
    ensures WithdrawalsOk(slots[i := Occupy(slots[i], next)], active[i := slots[i].generation],
                          Settle(p, i, next, deadline), h)
  {
    var p' := Settle(p, i, next, deadline);
    assert next !in h.withdrawn && next !in h.ended;
    forall t | t in p.home ensures p'.home[t] == p.home[t] != i {}
  }

  lemma OccupyKeepsEntries(slots: seq<Slot>, next: nat, p: Places, i: nat, deadline: int)
    requires HomesOk(slots, next, p) && EntriesOk(slots, next, p)
    requires i in p.reserved && i < |slots| && !slots[i].occupied
    ensures EntriesOk(slots[i := Occupy(slots[i], next)], next + 1, Settle(p, i, next, deadline))
    ensures forall e :: e in p.entries ==> Live(slots[i := Occupy(slots[i], next)], e) == Live(slots, e)
    ensures Dead(p.entries, slots[i := Occupy(slots[i], next)]) == Dead(p.entries, slots)
  {
    var slots', p' := slots[i := Occupy(slots[i], next)], Settle(p, i, next, deadline);
    forall e | e in p.entries ensures EntryOk(e, slots', next + 1, p') && Live(slots', e) == Live(slots, e) {
      assert EntryOk(e, slots, next, p);
    }
    forall t | t in p'.home && t !in p'.unqueued && !slots'[p'.home[t]].cancelRequested
      ensures EntryOf(t, slots', p') in p'.entries
    {
      assert EntryOf(t, slots', p') == EntryOf(t, slots, p);
    }
  }

  /** Pushing the entry of a pending timer that has none. */
  lemma PushKeepsEntries(slots: seq<Slot>, next: nat, p: Places, t: nat)
    requires HomesOk(slots, next, p) && EntriesOk(slots, next, p) && t in p.home && p.home[t] !in p.reserved
    requires forall e :: e in p.entries ==> e.sequence != t
    ensures EntriesOk(slots, next, p.(entries := p.entries + {EntryOf(t, slots, p)}, unqueued := p.unqueued - {t}))
    ensures !slots[p.home[t]].cancelRequested ==>
              Dead(p.entries + {EntryOf(t, slots, p)}, slots) == Dead(p.entries, slots)
  {
    var e := EntryOf(t, slots, p);
    var p' := p.(entries := p.entries + {e}, unqueued := p.unqueued - {t});
    forall f | f in p'.entries ensures EntryOk(f, slots, next, p') {
      if f != e { assert EntryOk(f, slots, next, p); }
    }
    forall s | s in p'.home && s !in p'.unqueued && !slots[p'.home[s]].cancelRequested
      ensures EntryOf(s, slots, p') in p'.entries
    {
      assert EntryOf(s, slots, p') == EntryOf(s, slots, p);
    }
  }

  lemma PushedHeap(h: seq<Entry>, timers: seq<Entry>, entries: set<Entry>, e: Entry)
    requires IsHeap(h) && multiset(h) == multiset(timers + [e]) && HeapOk(timers, entries) && e !in entries
    requires forall f, g :: f in entries && g in entries && f.sequence == g.sequence ==> f == g
    ensures HeapOk(h, entries + {e})
    ensures h != [] && (h[0] == e || (timers != [] && h[0] == timers[0]))
  {
    assert multiset(h)[e] > 0;
    assert multiset(timers + [e]) == multiset(timers) + multiset{e};
    assert multiset(entries + {e}) == multiset(entries) + multiset{e};
    if h[0] != e {
      assert h[0] in multiset(h) && h[0] in multiset(entries);
      FrontIsEntry(timers, entries);
      FrontPrecedesAll(h, entries + {e});
      FrontPrecedesAll(timers, entries);
    }
  }

  lemma HeadOfChain(slots: seq<Slot>, head: int, next: nat, p: Places)
    requires SlotsOk(slots, head, next, p)
    ensures if head == NO_SLOT then p.free == [] else p.free != [] && 0 <= head < |slots| && head == p.free[0]
  {
    assert p.free != [] ==> p.free[0] in p.free;
  }

  lemma ReservedSlot(slots: seq<Slot>, head: int, next: nat, p: Places, i: nat)
    requires SlotsOk(slots, head, next, p) && i in p.reserved
    ensures i < |slots| && !slots[i].occupied && !slots[i].cancelRequested && slots[i].generation > 0
    ensures HomesOk(slots, next, p)
  {
  }

  lemma SettleFrame(p: Places, i: nat, t: nat, deadline: int, slots: seq<Slot>, dispatching: bool, roundDeadline: int)
    requires RoundOk(dispatching, roundDeadline, t, p.deadlines, p.roundLimit)
    requires dispatching ==> deadline >= roundDeadline
    ensures RoundOk(dispatching, roundDeadline, t + 1, Settle(p, i, t, deadline).deadlines, p.roundLimit)
  {
  }

  /** The second half of a registration: reserved slot i gets its timer, or is given up. */
  ghost predicate Resolves(c: Snapshot, d: Snapshot, i: nat) {
    && HistoryGrows(c.h, d.h) && (forall k :: |c.h.log| <= k < |d.h.log| ==> !IsExpiry(d.h.log[k]))
    && c.next <= d.next && d.posted == c.posted && d.stopping == c.stopping && (c.stopping ==> d.next == c.next)
    && d.dispatching == c.dispatching && d.roundDeadline == c.roundDeadline
    && |d.slots| == |c.slots| && i < |c.slots| && i in c.p.reserved
    && (forall k :: 0 <= k < |c.slots| && k != i ==> d.slots[k] == c.slots[k])
    && d.slots[i].generation == c.slots[i].generation
    && (d.slots[i].occupied ==> d.slots[i].timer == c.next)
    && (forall t :: t in c.p.deadlines ==> t in d.p.deadlines && d.p.deadlines[t] == c.p.deadlines[t])
    && (forall t :: t in d.p.deadlines && t !in c.p.deadlines ==> t >= c.next)
    && (forall t :: t in d.p.home && t < c.next ==> t in c.p.home && d.p.home[t] == c.p.home[t])
    && (forall e :: e in d.p.entries ==> e in c.p.entries || e.sequence >= c.next)
    && d.p.roundLimit == c.p.roundLimit && d.p.reserved == c.p.reserved - {i}
  }

  lemma ReservesFirst(a: Snapshot, b: Snapshot, i: nat)
    requires Reserves(a, b, i)
    ensures i < |b.slots| && |a.slots| <= |b.slots| && i in b.p.reserved
    ensures forall k :: 0 <= k < |a.slots| && k != i ==> b.slots[k] == a.slots[k]
    ensures i < |a.slots| ==> !a.slots[i].occupied && b.slots[i].generation > a.slots[i].generation
    ensures b.p.reserved == a.p.reserved + {i} && i !in a.p.reserved
    ensures b.next == a.next && b.h == a.h && b.posted == a.posted && b.stopping == a.stopping
    ensures b.dispatching == a.dispatching && b.roundDeadline == a.roundDeadline
    ensures b.p == a.p.(free := b.p.free, reserved := b.p.reserved)
    ensures b.topLive == a.topLive && b.covered == a.covered
  {
  }

  /** Reserve, move the completion in (user code), resolve: nothing else happened. */
  lemma RegistrationPlaces(a: Snapshot, b: Snapshot, c: Snapshot, d: Snapshot, i: nat)
    requires Reserves(a, b, i) && PlacesEvolve(b, c) && Resolves(c, d, i) && b.next <= c.next
    ensures PlacesEvolve(a, d) && PlacesEvolve(a.(covered := false), d)
  {
  }

  lemma RegistrationSlots(a: Snapshot, b: Snapshot, c: Snapshot, d: Snapshot, i: nat)
    requires Reserves(a, b, i) && SlotsEvolve(b, c) && Resolves(c, d, i) && b.next <= c.next
    ensures SlotsEvolve(a, d) && SlotsEvolve(a.(covered := false), d)
  {
    hide Reserves;
    ReservesFirst(a, b, i);
    forall k | 0 <= k < |a.slots| && d.slots[k].occupied
      ensures if d.slots[k].timer < a.next then d.slots[k].generation == a.slots[k].generation
              else d.slots[k].generation > a.slots[k].generation
    {
      if k != i { assert d.slots[k] == c.slots[k]; }
    }
  }

  lemma RegistrationEvolves(a: Snapshot, b: Snapshot, c: Snapshot, d: Snapshot, i: nat)
    requires !a.stopping && Reserves(a, b, i) && Completes(b, c) && Resolves(c, d, i)
    requires (c.stopping ==> d.p.home == c.p.home) && (c.topLive ==> d.topLive)
    ensures Completes(a.(covered := false), d)
    ensures (c.covered ==> d.covered) ==> Completes(a, d)
  {
    hide PlacesEvolve, SlotsEvolve, HistoryGrows, Reserves;
    RegistrationPlaces(a, b, c, d, i);
    RegistrationSlots(a, b, c, d, i);
    ReservesFirst(a, b, i);
    HistoryGrowsFurther(b.h, c.h, d.h);
    LogExtends(b.h, c.h, d.h);
  }

  lemma PublishKeepsCover(exempt: bool, timers: seq<Entry>, entries: set<Entry>, slots: seq<Slot>, armed: bool,
                          deadline: int,
                          timers': seq<Entry>, e: Entry, slots': seq<Slot>)
    requires forall f :: f in entries ==> Live(slots', f) == Live(slots, f)
    requires HeapOk(timers, entries) && Live(slots', e)
    requires timers' != [] && (timers'[0] == e || (timers != [] && timers'[0] == timers[0]))
    ensures TopIsLive(exempt, timers, slots) ==> TopIsLive(exempt, timers', slots')
    ensures WaitCovers(exempt, entries, slots, armed, deadline) && (exempt || (armed && deadline <= e.deadline)) ==>
              WaitCovers(exempt, entries + {e}, slots', armed, deadline)
  {
    hide Live;
    if timers != [] { FrontIsEntry(timers, entries); }
  }

  lemma EntriesAreOld(slots: seq<Slot>, head: int, next: nat, p: Places, h: History, active: seq<nat>)
    requires EntriesOk(slots, next, p) && FatesOk(h, next, p) && WithdrawalsOk(slots, active, p, h)
             && SlotsOk(slots, head, next, p)
    ensures forall e :: e in p.entries ==> e.sequence < next
    ensures next !in h.withdrawn && next !in p.home && next !in h.ended && next !in p.deadlines
    ensures forall e, f :: e in p.entries && f in p.entries && e.sequence == f.sequence ==> e == f
  {
    hide FateOk;
    forall e | e in p.entries ensures e.sequence < next { assert EntryOk(e, slots, next, p); }
  }

  /** Only EntriesOk speaks of the entry a pending timer has or lacks. */
  lemma SlotsIgnoreQueue(slots: seq<Slot>, head: int, next: nat, active: seq<nat>, p: Places, h: History,
                         entries: set<Entry>, unqueued: set<nat>)
    requires SlotsOk(slots, head, next, p) && FatesOk(h, next, p) && WithdrawalsOk(slots, active, p, h)
    ensures SlotsOk(slots, head, next, p.(entries := entries, unqueued := unqueued))
    ensures FatesOk(h, next, p.(entries := entries, unqueued := unqueued))
    ensures WithdrawalsOk(slots, active, p.(entries := entries, unqueued := unqueued), h)
  {
  }

  lemma NothingNew(h: History)
    ensures HistoryGrows(h, h)
  {
  }

  /** A slot whose timer has no entry: vacating it changes no entry's liveness. */
  lemma VacatedWasNotQueued(slots: seq<Slot>, next: nat, p: Places, i: nat, head: int)
    requires EntriesOk(slots, next, p) && i < |slots|
    requires forall e :: e in p.entries ==> e.sequence != slots[i].timer
    ensures forall e :: e in p.entries ==> Live(slots[i := Freed(slots[i], head)], e) == Live(slots, e)
  {
    forall e | e in p.entries ensures Live(slots[i := Freed(slots[i], head)], e) == Live(slots, e) {
      assert EntryOk(e, slots, next, p);
    }
  }

  lemma ConcludeGrows(h: History, fate: Fate)
    requires fate.timer !in h.ended && !IsExpiry(fate)
    ensures HistoryGrows(h, Conclude(h, fate)) && Conclude(h, fate).window == None
    ensures forall k :: |h.log| <= k < |Conclude(h, fate).log| ==> !IsExpiry(Conclude(h, fate).log[k])
  {
  }

  lemma SettledTimer(slots: seq<Slot>, p: Places, i: nat, t: nat, deadline: int)
    requires i < |slots| && forall e :: e in Settle(p, i, t, deadline).entries ==> e.sequence < t
    ensures var p', slots' := Settle(p, i, t, deadline), slots[i := Occupy(slots[i], t)];
      && slots'[i].occupied && slots'[i].timer == t && t in p'.unqueued && t in p'.home && t in p'.deadlines
          && p'.home[t] == i
      && EntryOf(t, slots', p') !in p'.entries && p'.entries == p.entries
  {
  }

  lemma RollBackResolves(c: Snapshot, d: Snapshot, i: nat, deadline: int, head: int)
    requires !c.stopping && i in c.p.reserved && i < |c.slots| && c.next !in c.h.ended && c.next !in c.p.home
    requires c.next !in c.p.deadlines
    requires d == c.(h := Conclude(Drop(c.h, c.next), Destroyed(c.next)), next := c.next + 1,
                     slots := c.slots[i := Freed(Occupy(c.slots[i], c.next), head)],
                     p := Vacate(Settle(c.p, i, c.next, deadline), i, Some(c.next)), topLive := d.topLive,
                         covered := d.covered)
    ensures Resolves(c, d, i)
    ensures c.p.unqueued == {} ==> d.p.unqueued == {}
    ensures d.h.window == None
  {
    ConcludeGrows(Drop(c.h, c.next), Destroyed(c.next));
  }

  lemma DestructionAllowed(slots: seq<Slot>, active: seq<nat>, p: Places, h: History, t: nat)
    requires WithdrawalsOk(slots, active, p, h) && t !in h.withdrawn && t in h.dropped
    ensures FateAllowed(Destroyed(t), t, h)
  {
  }

  lemma StillReserved(a: Snapshot, b: Snapshot, c: Snapshot, i: nat)
    requires Reserves(a, b, i) && Completes(b, c)
    ensures i in c.p.reserved && i < |c.slots| && c.dispatching == a.dispatching && c.roundDeadline == a.roundDeadline
    ensures a.covered ==> c.covered
    ensures a.next <= c.next && (c.stopping ==> c.p.home == map[] || b.stopping)
  {
  }

  lemma AbandonResolves(c: Snapshot, d: Snapshot, i: nat, head: int)
    requires i in c.p.reserved && i < |c.slots| && !c.slots[i].occupied
    requires d == c.(slots := c.slots[i := Freed(c.slots[i], head)], p := Vacate(c.p, i, None),
                     topLive := d.topLive, covered := d.covered)
    ensures Resolves(c, d, i) && d.p.home == c.p.home && d.p.unqueued == c.p.unqueued
  {
  }

  /** Promises about everything but the armed wait compose. */
  lemma ForgetCover(a: Snapshot, b: Snapshot)
    requires Completes(a, b) || Completes(a.(covered := false), b)
    ensures Completes(a.(covered := false), b.(covered := false))
  {
    assert PlacesEvolve(a.(covered := false), b.(covered := false));
    assert SlotsEvolve(a.(covered := false), b.(covered := false));
  }

  lemma CoveredAfterAll(a: Snapshot, b: Snapshot)
    requires Completes(a.(covered := false), b.(covered := false)) && (a.covered ==> b.covered)
    ensures Completes(a, b)
  {
    assert PlacesEvolve(a, b);
    assert SlotsEvolve(a, b);
  }

  lemma StillEnded(a: Snapshot, b: Snapshot, t: nat, fate: Fate)
    requires Completes(a, b) || Completes(a.(covered := false), b)
    requires t in a.h.ended && a.h.ended[t] < |a.h.log| && a.h.log[a.h.ended[t]] == fate
    ensures t in b.h.ended && b.h.ended[t] < |b.h.log| && b.h.log[b.h.ended[t]] == fate
  {
  }

  lemma SameRound(a: Snapshot, b: Snapshot)
    requires Completes(a, b) || Completes(a.(covered := false), b)
    ensures b.dispatching == a.dispatching && b.roundDeadline == a.roundDeadline
  {
  }

  lemma UncoveredBefore(a: Snapshot, b: Snapshot)
    requires Completes(a, b)
    ensures Completes(a.(covered := false), b)
  {
    assert PlacesEvolve(a.(covered := false), b);
    assert SlotsEvolve(a.(covered := false), b);
  }

  /** A registration that failed, then the destruction of its completion. */
  lemma AfterDestruction(a: Snapshot, b: Snapshot, c: Snapshot)
    requires Completes(a, b) && Completes(b, c)
    requires HomesOk(c.slots, c.next, c.p) && HomesOk(b.slots, b.next, b.p)
    ensures Completes(a, c) && Completes(a.(covered := false), c)
    ensures c.dispatching == a.dispatching && c.roundDeadline == a.roundDeadline
    ensures (b.stopping ==> c.stopping) && (a.covered ==> c.covered)
  {
    hide PlacesEvolve, SlotsEvolve, HistoryGrows, HomesOk;
    EvolvesFurther(a, b, c);
    UncoveredBefore(a, c);
  }

  // ----- releasing a slot

  function Freed(slot: Slot, head: int): Slot {
    slot.(occupied := false, cancelRequested := false, nextFree := head)
  }

  /** The slot returns to the free chain; its timer, if it had one, is pending no more. */
  ghost function Vacate(p: Places, i: nat, timer: Option<nat>): Places {
    match timer
    case None => p.(free := [i] + p.free, reserved := p.reserved - {i})
    case Some(t) => p.(free := [i] + p.free, home := p.home - {t}, unqueued := p.unqueued - {t})
  }

  ghost function Conclude(h: History, fate: Fate): History {
    h.(log := h.log + [fate], ended := h.ended[fate.timer := |h.log|], window := None,
       withdrawn := if fate == Delivered(fate.timer, Expired) then h.withdrawn else h.withdrawn + {fate.timer})
  }

  /** The fate the worker may give pending timer t in the given state. */
  ghost predicate FateAllowed(fate: Fate, t: nat, h: History) {
    && fate.timer == t
    && (fate == Delivered(t, Expired) ==> t !in h.withdrawn || t in h.raced)
    && (t in h.silenced ==> (t in h.raced <==> fate.Delivered?))
    && (fate.Destroyed? ==> t in h.dropped || t in h.silenced)
  }

  lemma ChainGrows(slots: seq<Slot>, head: int, free: seq<nat>, i: nat)
    requires FreeChain(slots, head, free) && i < |slots| && i !in free
    ensures FreeChain(slots[i := Freed(slots[i], head)], i, [i] + free)
  {
    var slots', free' := slots[i := Freed(slots[i], head)], [i] + free;
    forall k | 0 <= k < |free'|
      ensures slots'[free'[k]].nextFree == Successor(free', k)
    {
      if k > 0 {
        var j := k - 1;
        assert free'[k] == free[j] && free[j] in free;
        assert slots[free[j]].nextFree == Successor(free, j) == Successor(free', k);
      }
    }
  }

  lemma VacateSlots(slots: seq<Slot>, head: int, next: nat, p: Places, i: nat, timer: Option<nat>)
    requires SlotsOk(slots, head, next, p) && i < |slots|
    requires timer.Some? ==> slots[i].occupied && slots[i].timer == timer.value
    requires timer.None? ==> i in p.reserved && !slots[i].occupied
    ensures SlotsOk(slots[i := Freed(slots[i], head)], i, next, Vacate(p, i, timer))
  {
    ChainGrows(slots, head, p.free, i);
    VacatePartition(slots, head, p, i, timer);
    VacateHomes(slots, head, next, p, i, timer);
  }

  lemma VacatePartition(slots: seq<Slot>, head: int, p: Places, i: nat, timer: Option<nat>)
    requires PartitionOk(slots, p) && i < |slots|
    requires timer.Some? ==> slots[i].occupied
    requires timer.None? ==> i in p.reserved && !slots[i].occupied
    ensures PartitionOk(slots[i := Freed(slots[i], head)], Vacate(p, i, timer))
  {
    assert forall x :: x in [i] + p.free <==> x == i || x in p.free;
  }

  lemma VacateHomes(slots: seq<Slot>, head: int, next: nat, p: Places, i: nat, timer: Option<nat>)
    requires HomesOk(slots, next, p) && i < |slots|
    requires timer.Some? ==> slots[i].occupied && slots[i].timer == timer.value
    requires timer.None? ==> !slots[i].occupied
    ensures HomesOk(slots[i := Freed(slots[i], head)], next, Vacate(p, i, timer))
  {
  }

  lemma VacateFates(h: History, next: nat, p: Places, i: nat, fate: Fate)
    requires FatesOk(h, next, p) && fate.timer in p.home && fate.timer < next
    ensures FatesOk(Conclude(h, fate), next, Vacate(p, i, Some(fate.timer)))
  {
  }

  lemma VacateWithdrawals(slots: seq<Slot>, active: seq<nat>, head: int, next: nat, p: Places, h: History,
                          i: nat, fate: Fate)
    requires SlotsOk(slots, head, next, p) && FatesOk(h, next, p) && WithdrawalsOk(slots, active, p, h)
    requires i < |slots| && slots[i].occupied && FateAllowed(fate, slots[i].timer, h)
    requires h.window.Some? ==> h.window == Some(fate.timer)
    ensures WithdrawalsOk(slots[i := Freed(slots[i], head)], active[i := 0],
                          Vacate(p, i, Some(fate.timer)), Conclude(h, fate))
  {
    var t, h', p' := fate.timer, Conclude(h, fate), Vacate(p, i, Some(fate.timer));
    forall s | s in h'.ended ensures FateOk(h'.log[h'.ended[s]], s, h') {
      if s != t { assert h'.log[h'.ended[s]] == h.log[h.ended[s]]; }
    }
    forall s | s in p'.home ensures p'.home[s] != i && s != t {}
  }

  lemma VacateEntries(slots: seq<Slot>, head: int, next: nat, p: Places, i: nat, timer: Option<nat>)
    requires SlotsOk(slots, head, next, p) && EntriesOk(slots, next, p) && i < |slots|
    requires timer.Some? ==> slots[i].occupied && slots[i].timer == timer.value
    requires timer.None? ==> i in p.reserved && !slots[i].occupied
    ensures EntriesOk(slots[i := Freed(slots[i], head)], next, Vacate(p, i, timer))
  {
    var slots', p' := slots[i := Freed(slots[i], head)], Vacate(p, i, timer);
    forall e | e in p'.entries ensures EntryOk(e, slots', next, p') {
      assert EntryOk(e, slots, next, p);
    }
    forall t | t in p'.home && t !in p'.unqueued && !slots'[p'.home[t]].cancelRequested
      ensures EntryOf(t, slots', p') in p'.entries
    {
      assert p'.home[t] != i;
      assert EntryOf(t, slots', p') == EntryOf(t, slots, p);
    }
  }

  ghost function AfterFate(h: History, fate: Option<Fate>): History {
    match fate
    case None => h
    case Some(f) => Conclude(h, f)
  }

  lemma LostByFate(h: History, t: nat, outcome: Outcome)
    requires t in h.silenced && t in h.raced
    ensures LostRace(Conclude(h, Delivered(t, outcome)), t, outcome)
  {
  }

  ghost function TimerOf(fate: Option<Fate>): Option<nat> {
    match fate
    case None => None
    case Some(f) => Some(f.timer)
  }

  lemma ReleaseKeepsStructure(slots: seq<Slot>, active: seq<nat>, head: int, next: nat, p: Places, h: History,
                              i: nat, fate: Option<Fate>)
    requires SlotsOk(slots, head, next, p) && FatesOk(h, next, p) && WithdrawalsOk(slots, active, p, h)
    requires EntriesOk(slots, next, p) && i < |slots|
    requires fate.Some? ==> slots[i].occupied && FateAllowed(fate.value, slots[i].timer, h)
    requires fate.None? ==> i in p.reserved && !slots[i].occupied
    requires h.window.Some? ==> fate.Some? && h.window == Some(fate.value.timer)
    ensures SlotsOk(slots[i := Freed(slots[i], head)], i, next, Vacate(p, i, TimerOf(fate)))
    ensures FatesOk(AfterFate(h, fate), next, Vacate(p, i, TimerOf(fate)))
    ensures WithdrawalsOk(slots[i := Freed(slots[i], head)], active[i := 0], Vacate(p, i, TimerOf(fate)),
                          AfterFate(h, fate))
    ensures EntriesOk(slots[i := Freed(slots[i], head)], next, Vacate(p, i, TimerOf(fate)))
  {
    VacateSlots(slots, head, next, p, i, TimerOf(fate));
    VacateEntries(slots, head, next, p, i, TimerOf(fate));
    if fate.Some? {
      VacateFates(h, next, p, i, fate.value);
      VacateWithdrawals(slots, active, head, next, p, h, i, fate.value);
    } else {
      ReleaseReservedWithdrawals(slots, active, head, next, p, h, i);
    }
  }

  lemma ReleaseReservedWithdrawals(slots: seq<Slot>, active: seq<nat>, head: int, next: nat, p: Places, h: History,
                                   i: nat)
    requires SlotsOk(slots, head, next, p) && WithdrawalsOk(slots, active, p, h)
    requires i < |slots| && !slots[i].occupied
    ensures WithdrawalsOk(slots[i := Freed(slots[i], head)], active[i := 0], Vacate(p, i, None), h)
  {
    assert active[i := 0] == active;
  }

  /** How many entries the release of slot i makes dead. */
  ghost function NewlyDead(slots: seq<Slot>, p: Places, i: nat, fate: Option<Fate>): nat
    requires i < |slots|
  {
    if fate.None? || slots[i].cancelRequested || slots[i].timer in p.unqueued then 0 else 1
  }

  lemma ReleaseCountsDead(slots: seq<Slot>, head: int, next: nat, p: Places, i: nat, fate: Option<Fate>,
                          stopping: bool, count: nat)
    requires SlotsOk(slots, head, next, p) && EntriesOk(slots, next, p) && i < |slots|
    requires CountOk(stopping, count, p.entries, slots)
    requires fate.Some? ==> slots[i].occupied && slots[i].timer == fate.value.timer
    requires fate.None? ==> !slots[i].occupied
    requires fate.Some? && !stopping && slots[i].timer in p.unqueued ==>
               EntryOf(slots[i].timer, slots, p) !in p.entries
    ensures CountOk(stopping, count + (if stopping then 0 else NewlyDead(slots, p, i, fate)), p.entries,
                    slots[i := Freed(slots[i], head)])
  {
    if stopping { return; }
    var slots' := slots[i := Freed(slots[i], head)];
    if NewlyDead(slots, p, i, fate) == 1 {
      OneMoreDead(slots, slots', i, next, p);
    } else {
      forall e | e in p.entries && e.slot == i ensures !Live(slots, e) {
        assert EntryOk(e, slots, next, p);
        assert slots[i].occupied ==> slots[i].timer in p.home;
      }
      SameDead(slots, slots', i, next, p);
    }
  }

  /** A slot whose timer has no live entry leaves the dead entries as they were. */
  lemma SameDead(slots: seq<Slot>, slots': seq<Slot>, i: nat, next: nat, p: Places)
    requires i < |slots| == |slots'| && slots' == slots[i := slots'[i]]
    requires EntriesOk(slots, next, p)
    requires forall e :: e in p.entries && e.slot == i ==> !Live(slots, e)
    requires !slots'[i].occupied
    ensures Dead(p.entries, slots') == Dead(p.entries, slots)
  {
    forall e | e in p.entries ensures Live(slots', e) == Live(slots, e) {}
  }

  lemma SlotsSplit(slots: seq<Slot>, head: int, next: nat, p: Places)
    requires SlotsOk(slots, head, next, p)
    ensures HomesOk(slots, next, p) && PartitionOk(slots, p)
  {
  }

  lemma PendingTimer(slots: seq<Slot>, head: int, next: nat, p: Places, h: History, i: nat)
    requires SlotsOk(slots, head, next, p) && FatesOk(h, next, p) && i < |slots| && slots[i].occupied
    ensures slots[i].timer in p.home && p.home[slots[i].timer] == i
    ensures slots[i].timer < next && slots[i].timer !in h.ended
  {
  }

  lemma ReleaseKeepsNotices(stopping: bool, slots: seq<Slot>, posted: seq<Posted>, i: nat, head: int)
    requires NoticesOk(stopping, slots, posted) && i < |slots|
    ensures NoticesOk(stopping, slots[i := Freed(slots[i], head)], posted)
  {
  }

  lemma VacateFrame(p: Places, i: nat, timer: Option<nat>, timers: seq<Entry>, stopping: bool)
    requires StopOk(stopping, timers, p.unqueued, p.home)
    ensures var p' := Vacate(p, i, timer);
            p'.entries == p.entries && p'.deadlines == p.deadlines && p'.roundLimit == p.roundLimit
            && p'.unqueued <= p.unqueued && StopOk(stopping, timers, p'.unqueued, p'.home)
  {
  }

  // ----- pruning dead entries

  lemma FrontIsLive(h: seq<Entry>, entries: set<Entry>, slots: seq<Slot>)
    requires HeapOk(h, entries) && h != [] && Dead(entries, slots) == {}
    ensures Live(slots, h[0])
  {
    FrontIsEntry(h, entries);
    assert h[0] !in Dead(entries, slots);
  }

  lemma PruneDead(slots: seq<Slot>, next: nat, p: Places, gone: set<Entry>)
    requires HomesOk(slots, next, p) && EntriesOk(slots, next, p) && gone <= Dead(p.entries, slots)
    ensures EntriesOk(slots, next, p.(entries := p.entries - gone))
    ensures Dead(p.entries - gone, slots) == Dead(p.entries, slots) - gone
    ensures |Dead(p.entries - gone, slots)| == |Dead(p.entries, slots)| - |gone|
  {
    var p' := p.(entries := p.entries - gone);
    forall t | t in p'.home && t !in p'.unqueued && !slots[p'.home[t]].cancelRequested
      ensures EntryOf(t, slots, p') in p'.entries
    {
      assert EntryOf(t, slots, p) in p.entries && Live(slots, EntryOf(t, slots, p));
    }
    forall e | e in p'.entries ensures EntryOk(e, slots, next, p') {
      assert EntryOk(e, slots, next, p);
    }
    assert Dead(p.entries, slots) == Dead(p'.entries, slots) + gone;
  }

  lemma PruneStructure(slots: seq<Slot>, head: int, next: nat, active: seq<nat>, p: Places, h: History,
                       gone: set<Entry>, count: int)
    requires SlotsOk(slots, head, next, p) && FatesOk(h, next, p) && WithdrawalsOk(slots, active, p, h)
    requires EntriesOk(slots, next, p) && CountOk(false, count, p.entries, slots)
    requires gone <= p.entries && forall e :: e in gone ==> !Live(slots, e)
    ensures SlotsOk(slots, head, next, p.(entries := p.entries - gone))
    ensures FatesOk(h, next, p.(entries := p.entries - gone))
    ensures WithdrawalsOk(slots, active, p.(entries := p.entries - gone), h)
    ensures EntriesOk(slots, next, p.(entries := p.entries - gone))
    ensures CountOk(false, count - |gone|, p.entries - gone, slots)
  {
    hide FatesOk, WithdrawalsOk, EntriesOk;
    PruneDead(slots, next, p, gone);
    SlotsIgnoreQueue(slots, head, next, active, p, h, p.entries - gone, p.unqueued);
  }

  lemma DeadAreDead(entries: set<Entry>, slots: seq<Slot>, count: nat)
    ensures Dead(entries, slots) <= entries && (forall e :: e in Dead(entries, slots) ==> !Live(slots, e))
    ensures Dead(entries - Dead(entries, slots), slots) == {}
    ensures CountOk(false, count, entries, slots) ==> CountOk(false, 0, entries - Dead(entries, slots), slots)
  {
  }

  lemma EmptyHeap(h: seq<Entry>, entries: set<Entry>, slots: seq<Slot>, stopping: bool)
    requires HeapOk(h, entries) && h == []
    ensures entries == {} && Dead(entries, slots) == {} && CountOk(stopping, 0, entries, slots)
  {
    SetAndSequenceAgree(h, entries);
  }

  lemma NothingLive(h: seq<Entry>, entries: set<Entry>, slots: seq<Slot>, count: nat)
    requires HeapOk(h, entries) && CountOk(false, count, entries, slots) && count == |h|
    ensures forall e :: e in entries ==> !Live(slots, e)
    ensures |entries| == count
  {
    SetAndSequenceAgree(h, entries);
    AllDead(entries, slots);
  }

  lemma NoEntries(entries: set<Entry>, slots: seq<Slot>)
    ensures entries - entries == {} && HeapOk([], {}) && CountOk(false, 0, {}, slots)
  {
    assert Dead({}, slots) == {};
  }

  lemma HeapFrom(h: seq<Entry>, from: seq<Entry>, entries: set<Entry>)
    requires IsHeap(h) && multiset(h) == multiset(from) == multiset(entries)
    ensures HeapOk(h, entries)
  {
  }

  lemma FrontIsEntry(h: seq<Entry>, entries: set<Entry>)
    requires HeapOk(h, entries) && h != []
    ensures h[0] in entries
    ensures multiset(h[1..]) == multiset(entries - {h[0]})
  {
    SetAndSequenceAgree(h, entries);
    assert h == [h[0]] + h[1..];
    assert multiset(h) == multiset{h[0]} + multiset(h[1..]);
    forall e ensures multiset(h[1..])[e] == multiset(entries - {h[0]})[e] {
      assert multiset(h)[e] == multiset(entries)[e];
    }
  }

  /** One pending timer is withdrawn: its slot is released and the heap may be pruned. */
  lemma WithdrawalEvolves(a: Snapshot, b: Snapshot, i: nat, head: int, fate: Fate)
    requires i < |a.slots| && a.slots[i].occupied && HomesOk(a.slots, a.next, a.p) && PartitionOk(a.slots, a.p)
    requires b == a.(h := Conclude(a.h, fate), slots := a.slots[i := Freed(a.slots[i], head)],
                     p := Vacate(a.p, i, Some(a.slots[i].timer)).(entries := b.p.entries),
                     topLive := b.topLive, covered := b.covered)
    requires fate.timer == a.slots[i].timer && fate.timer !in a.h.ended && !IsExpiry(fate)
    requires b.p.entries <= a.p.entries
    requires (a.topLive ==> b.topLive) && (a.covered ==> b.covered)
    ensures Completes(a, b)
  {
  }
}
