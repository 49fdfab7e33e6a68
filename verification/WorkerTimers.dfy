/** The timer queue of one worker (ruvia-core/src/worker_timers.cpp): a lazily pruned
    deadline heap over reusable, generation-stamped slots, with one armed wait,
    snapshot firing rounds, and cancellation from any thread. */
module WorkerTimers {
  import opened Sequences
  import opened TimerHeap
  import opened TimerRounds
  import opened TimerState
  import opened TimerSteps
  import opened Wrappers

  const UNDISTURBED: Command := Schedule(0, Quiet, false, false, Quiet, false, Done)

  class TimerQueue {
    var timers: seq<Entry>
    var slots: seq<Slot>
    var active: seq<nat>        // the slots' atomic activity words
    var freeSlot: int
    var nextSequence: nat
    var timerGeneration: nat
    var armedDeadline: int
    var armed: bool
    var dispatching: bool
    var roundDeadline: int
    var stopping: bool          // the native timer object exists exactly until this is set
    var staleCount: nat
    var posted: seq<Posted>     // cancellation handlers waiting on the io_context
    var waits: set<nat>         // generations of native waits that may still complete
    ghost var p: Places
    ghost var h: History

    /** The structure of the queue, up to `owed` dead entries not yet counted. */
    ghost predicate Core(owed: int)
      reads this
    {
      && SlotsOk(slots, freeSlot, nextSequence, p)
      && FatesOk(h, nextSequence, p)
      && WithdrawalsOk(slots, active, p, h)
      && EntriesOk(slots, nextSequence, p)
      && HeapOk(timers, p.entries) && |active| == |slots|
      && CountOk(stopping, staleCount + owed, p.entries, slots)
      && StopOk(stopping, timers, p.unqueued, p.home)
      && WaitsOk(stopping, dispatching, armed, timerGeneration, waits)
      && RoundOk(dispatching, roundDeadline, nextSequence, p.deadlines, p.roundLimit)
      && NoticesOk(stopping, slots, posted)
    }

    /** What holds wherever user code can run. */
    ghost predicate Valid()
      reads this
    {
      Core(0) && h.window == None && (!stopping ==> p.unqueued == {})
    }

    ghost predicate TopLive()
      reads this
    {
      TopIsLive(stopping || dispatching, timers, slots)
    }

    ghost predicate Covered()
      reads this
    {
      WaitCovers(stopping || dispatching, p.entries, slots, armed, armedDeadline)
    }

    /** What additionally holds between handlers. */
    ghost predicate Settled()
      reads this
    {
      Valid() && TopLive() && Covered() && (stopping ==> p.home == map[])
    }

    ghost function Now(): Snapshot
      reads this
    {
      Snapshot(h, p, nextSequence, slots, posted, stopping, dispatching, roundDeadline, TopLive(), Covered())
    }

    constructor ()
      ensures Settled() && nextSequence == 0 && h.log == [] && h.silenced == {} && !stopping && !dispatching
    {
      timers, slots, active, freeSlot := [], [], [], NO_SLOT;
      nextSequence, timerGeneration, armedDeadline, armed := 0, 0, 0, false;
      dispatching, roundDeadline, stopping := false, 0, false;
      staleCount, posted, waits := 0, [], {};
      p := Places(map[], map[], {}, {}, [], {}, 0);
      h := History([], map[], {}, {}, {}, {}, None);
      new;
      assert Dead(p.entries, slots) == {};
    }

    predicate HasTimer(slot: nat, generation: nat)
      reads this
    {
      generation != 0 && slot < |active| && active[slot] == generation
    }

    ghost predicate ClaimsOne(steps: seq<ForeignStep>)
      reads this
    {
      && |steps| == 1 && steps[0].Deactivate?
      && HasTimer(steps[0].slot, steps[0].generation) && steps[0].slot < |slots|
    }

    /** Some pending timer is neither flagged nor silenced. */
    ghost predicate SomeTimer()
      reads this
    {
      exists i :: 0 <= i < |slots| && slots[i].occupied && !slots[i].cancelRequested && HasTimer(i, slots[i].generation)
    }

    /** The front's live timer is active, and the race silences it once that is loaded. */
    ghost predicate RacesFront(race: Race)
      reads this
    {
      && timers != [] && Live(slots, timers[0]) && HasTimer(timers[0].slot, timers[0].generation)
      && race == LateCancellation(timers[0].slot, timers[0].generation)
    }

    /** ... and a round begins with it. */
    ghost predicate FiresFirst(now: int, firings: seq<Firing>)
      reads this
    {
      firings != [] && RacesFront(firings[0].race) && timers[0].deadline <= now
    }

    /** Everything but the queue of posted handlers. */
    ghost function Frame(): (History, Places, seq<Slot>, seq<nat>, seq<Entry>, bool)
      reads this
    {
      (h, p, slots, active, timers, stopping)
    }

    /** What foreign threads do at one point of the worker's execution. */
    method ForeignTurn(steps: seq<ForeignStep>)
      requires Core(0)
      modifies this`active, this`posted, this`h
      ensures Core(0) && h.window == old(h).window
      ensures Interfered(old(active), old(posted), old(h), active, posted, h)
      ensures steps == [] ==> active == old(active) && h == old(h)
      ensures old(ClaimsOne(steps)) ==> h == Silence(old(h), slots[steps[0].slot].timer)
      ensures OnePost(steps) && !stopping ==>
                posted == old(posted) + [steps[0].handler] && active == old(active) && h == old(h)
    {
      hide Core, Interfered, Silence;
      NoInterference(active, posted, h);
      for k := 0 to |steps|
        invariant Core(0) && h.window == old(h).window
        invariant Interfered(old(active), old(posted), old(h), active, posted, h)
        invariant k == 0 ==> active == old(active) && h == old(h)
        invariant k == 1 && old(ClaimsOne(steps)) ==> h == Silence(old(h), slots[steps[0].slot].timer)
        invariant k == 0 ==> posted == old(posted)
        invariant k == 1 && steps[0].Post? && !stopping ==>
                    posted == old(posted) + [steps[0].handler] && active == old(active) && h == old(h)
      {
        ghost var active0, posted0, h0 := active, posted, h;
        match steps[k] {
          case Deactivate(slot, generation) => var done := ForeignDeactivate(slot, generation);
          case Post(handler) => ForeignPost(handler);
        }
        InterferenceComposes(old(active), old(posted), old(h), active0, posted0, h0, active, posted, h);
      }
    }

    /** unregister(false) on a foreign thread: claim the slot's activity word. */
    method ForeignDeactivate(slot: nat, generation: nat) returns (done: bool)
      requires Core(0)
      modifies this`active, this`h
      ensures Core(0) && h.window == old(h).window
      ensures done == old(HasTimer(slot, generation))
      ensures Interfered(old(active), old(posted), old(h), active, posted, h)
      ensures !done ==> active == old(active) && h == old(h)
      ensures done ==> active == old(active)[slot := 0] && h == Silence(old(h), slots[slot].timer)
    {
      hide SlotsOk, FatesOk, WithdrawalsOk, EntriesOk, HeapOk, CountOk, StopOk, WaitsOk, RoundOk, NoticesOk, Interfered;
      done := HasTimer(slot, generation);
      NoInterference(active, posted, h);
      if done {
        DeactivationIsWithdrawal(slots, active, nextSequence, freeSlot, p, h, slot);
        DeactivationInterferes(active, posted, h, nextSequence, p, slot, slots[slot].timer);
        active := active[slot := 0];
        h := Silence(h, slots[slot].timer);
      }
    }

    /** request_timer_cancellation off the worker: queue a handler unless stopped. */
    method ForeignPost(handler: Posted)
      requires Core(0)
      modifies this`posted
      ensures Core(0)
      ensures posted == if stopping then old(posted) else old(posted) + [handler]
      ensures Interfered(old(active), old(posted), old(h), active, posted, h)
    {
      hide SlotsOk, FatesOk, WithdrawalsOk, EntriesOk, HeapOk, CountOk, StopOk, WaitsOk, RoundOk;
      if stopping {
        return;
      }
      posted := posted + [handler];
    }

    /** release_timer_slot: an occupied slot's timer gets its fate; a slot that is
        still reserved has none. */
    method ReleaseTimerSlot(i: nat, ghost fate: Option<Fate>)
      requires Core(0) && i < |slots|
      requires fate.Some? ==> slots[i].occupied && slots[i].timer == fate.value.timer
      requires fate.Some? ==> FateAllowed(fate.value, slots[i].timer, h)
      requires fate.None? ==> i in p.reserved && !slots[i].occupied
      requires h.window.Some? ==> fate.Some? && h.window == Some(fate.value.timer)
      requires fate.Some? && !stopping && slots[i].timer in p.unqueued ==>
                 EntryOf(slots[i].timer, slots, p) !in p.entries
      modifies this`slots, this`active, this`freeSlot, this`p, this`h
      ensures Core(if stopping then 0 else old(NewlyDead(slots, p, i, fate)))
      ensures slots == old(slots)[i := Freed(old(slots[i]), old(freeSlot))] && freeSlot == i
      ensures active == old(active)[i := 0]
      ensures p == Vacate(old(p), i, TimerOf(fate)) && h == AfterFate(old(h), fate)
    {
      hide SlotsOk, FatesOk, WithdrawalsOk, EntriesOk, HeapOk, CountOk, StopOk, WaitsOk, RoundOk, NoticesOk, Dead,
           FateAllowed, NewlyDead, Freed, AfterFate, TimerOf;
      VacateFrame(p, i, TimerOf(fate), timers, stopping);
      ReleaseKeepsNotices(stopping, slots, posted, i, freeSlot);
      ReleaseKeepsStructure(slots, active, freeSlot, nextSequence, p, h, i, fate);
      ReleaseCountsDead(slots, freeSlot, nextSequence, p, i, fate, stopping, staleCount);
      slots := slots[i := Freed(slots[i], freeSlot)];
      freeSlot := i;
      active := active[i := 0];
      p := Vacate(p, i, TimerOf(fate));
      h := AfterFate(h, fate);
    }

    /** pop_heap and pop_back of a dead front entry. */
    method PopDeadFront(ghost owed: int)
      requires Core(owed) && !stopping && timers != [] && !Live(slots, timers[0])
      modifies this`timers, this`p
      ensures Core(owed - 1) && |timers| == |old(timers)| - 1
      ensures p == old(p).(entries := old(p).entries - {old(timers)[0]})
    {
      hide SlotsOk, FatesOk, WithdrawalsOk, EntriesOk, HeapOk, CountOk, WaitsOk, RoundOk, NoticesOk, Dead, Live;
      ghost var e := timers[0];
      FrontIsEntry(timers, p.entries);
      PruneStructure(slots, freeSlot, nextSequence, active, p, h, {e}, staleCount + owed);
      var rest := timers[1..];
      timers := ArrangeHeap(rest);
      p := p.(entries := p.entries - {e});
      assert |timers| == |rest| && HeapOk(timers, p.entries) by {
        assert |multiset(timers)| == |multiset(rest)|;
        HeapFrom(timers, rest, p.entries);
      }
    }

    method NoteStaleTimer()
      requires Core(if stopping then 0 else 1)
      modifies this`timers, this`staleCount, this`timerGeneration, this`armed, this`p
      ensures Core(0) && p == old(p).(entries := p.entries) && p.entries <= old(p.entries)
      ensures !stopping ==> timers == [] || Live(slots, timers[0])
      ensures !stopping ==> staleCount < COMPACTION_MINIMUM || 2 * staleCount < |timers|
      ensures armed == old(armed) || (!armed && timers == [])
    {
      hide SlotsOk, FatesOk, WithdrawalsOk, EntriesOk, HeapOk, WaitsOk, RoundOk, NoticesOk, Dead, Live;
      staleCount := staleCount + 1;
      if staleCount == |timers| {
        DropIdleHeap();
      } else {
        PruneFront();
        if staleCount >= COMPACTION_MINIMUM && staleCount * 2 >= |timers| {
          Compact();
          if timers != [] { FrontIsLive(timers, p.entries, slots); }
        }
      }
    }

    /** Nothing live remains: drop the heap and the armed wait. */
    method DropIdleHeap()
      requires Core(0) && staleCount == |timers| && !stopping
      modifies this`timers, this`staleCount, this`timerGeneration, this`armed, this`p
      ensures Core(0) && timers == [] && !armed && staleCount == 0 && p == old(p).(entries := {})
    {
      hide SlotsOk, FatesOk, WithdrawalsOk, EntriesOk, HeapOk, CountOk, RoundOk, NoticesOk, Dead, Live;
      NothingLive(timers, p.entries, slots, staleCount);
      PruneStructure(slots, freeSlot, nextSequence, active, p, h, p.entries, staleCount);
      NoEntries(p.entries, slots);
      timers, staleCount := [], 0;
      p := p.(entries := {});
      if armed {
        timerGeneration := timerGeneration + 1;
        armed := false;
      }
    }

    /** Pop dead entries off the front. */
    method PruneFront()
      requires Core(0)
      modifies this`timers, this`staleCount, this`p
      ensures Core(0) && p == old(p).(entries := p.entries) && p.entries <= old(p.entries)
      ensures timers == [] || Live(slots, timers[0])
    {
      hide SlotsOk, FatesOk, WithdrawalsOk, EntriesOk, HeapOk, WaitsOk, RoundOk, NoticesOk, Live;
      while timers != [] && !Live(slots, timers[0])
        invariant Core(0) && p == old(p).(entries := p.entries) && p.entries <= old(p.entries)
        decreases |timers|
      {
        PopDeadFront(0);
        staleCount := Less(staleCount);
      }
    }

    /** Compaction. On a stopped queue the heap is empty and only the drifting stale
        count starts over. */
    method Compact()
      requires Core(0)
      modifies this`timers, this`staleCount, this`p
      ensures Core(0) && p == old(p).(entries := p.entries) && p.entries <= old(p.entries)
      ensures staleCount == 0 && Dead(p.entries, slots) == {}
    {
      hide SlotsOk, FatesOk, WithdrawalsOk, EntriesOk, HeapOk, CountOk, WaitsOk, RoundOk, NoticesOk, Dead, Live;
      if timers == [] {
        EmptyHeap(timers, p.entries, slots, stopping);
        staleCount := 0;
      } else {
        EraseDead();
      }
    }

    /** erase_if over the dead entries, then make_heap. */
    method EraseDead()
      requires Core(0) && !stopping
      modifies this`timers, this`staleCount, this`p
      ensures Core(0) && staleCount == 0
      ensures p == old(p).(entries := old(p.entries - Dead(p.entries, slots)))
      ensures Dead(p.entries, slots) == {}
    {
      hide SlotsOk, FatesOk, WithdrawalsOk, EntriesOk, HeapOk, CountOk, WaitsOk, RoundOk, NoticesOk, LiveEntries,
           Dead, Live;
      ghost var dead := Dead(p.entries, slots);
      DeadAreDead(p.entries, slots, staleCount);
      PruneStructure(slots, freeSlot, nextSequence, active, p, h, dead, staleCount);
      LiveEntriesContents(timers, slots, p.entries);
      var kept := LiveEntries(timers, slots);
      timers := ArrangeHeap(kept);
      staleCount := 0;
      p := p.(entries := p.entries - dead);
      HeapFrom(timers, kept, p.entries);
    }

    /** Withdraws the occupied slot's timer with the given fate and prunes the heap. */
    method Withdraw(i: nat, ghost fate: Fate, sweeping: bool)
      requires Core(0) && (!stopping ==> p.unqueued == {}) && (sweeping ==> stopping)
      requires i < |slots| && slots[i].occupied && FateAllowed(fate, slots[i].timer, h)
      requires fate.timer == slots[i].timer && (h.window.Some? ==> h.window == Some(fate.timer))
      modifies this`timers, this`slots, this`active, this`freeSlot, this`staleCount,
               this`timerGeneration, this`armed, this`p, this`h
      ensures Valid()
      ensures h == Conclude(old(h), fate)
      ensures slots == old(slots)[i := Freed(old(slots[i]), old(freeSlot))]
      ensures p == Vacate(old(p), i, Some(fate.timer)).(entries := p.entries) && p.entries <= old(p.entries)
      ensures (old(TopLive()) ==> TopLive()) && (old(Covered()) ==> Covered())
    {
      hide SlotsOk, FatesOk, WithdrawalsOk, EntriesOk, WaitsOk, RoundOk, NoticesOk, IsHeap, Dead, HomesOk, PartitionOk,
           FateAllowed, HeapOk, CountOk, StopOk, TopIsLive, WaitCovers, Live, Vacate;
      VacateFrame(p, i, Some(fate.timer), timers, stopping);
      ghost var timers0, armed0, slots0, entries0 := timers, armed, slots, p.entries;
      var alreadyStale := slots[i].cancelRequested;
      ReleaseTimerSlot(i, Some(fate));
      if !alreadyStale && !sweeping {
        NoteStaleTimer();
        PrunedTopIsLive(stopping || dispatching, timers, slots);
      }
      WithdrawalKeepsCover(stopping || dispatching, timers0, entries0, slots0, armed0, armedDeadline,
                           timers, p.entries, slots, armed, i);
    }

    method Retire(i: nat, ghost fate: Fate, sweeping: bool)
      requires Core(0) && (!stopping ==> p.unqueued == {}) && (sweeping ==> stopping)
      requires i < |slots| && slots[i].occupied && FateAllowed(fate, slots[i].timer, h)
      requires fate.timer == slots[i].timer && (h.window.Some? ==> h.window == Some(fate.timer)) && !IsExpiry(fate)
      modifies this`timers, this`slots, this`active, this`freeSlot, this`staleCount,
               this`timerGeneration, this`armed, this`p, this`h
      ensures Valid() && Completes(old(Now()), Now()) && h == Conclude(old(h), fate)
      ensures |slots| == |old(slots)| && !slots[i].occupied && p.home == old(p).home - {fate.timer}
    {
      hide SlotsOk, FatesOk, WithdrawalsOk, EntriesOk, WaitsOk, RoundOk, NoticesOk, HomesOk, PartitionOk, Evolves,
           FateAllowed, IsExpiry, HeapOk, CountOk, StopOk, TopIsLive, WaitCovers, Conclude;
      ghost var b, head := Now(), freeSlot;
      SlotsSplit(slots, freeSlot, nextSequence, p);
      PendingTimer(slots, freeSlot, nextSequence, p, h, i);
      Withdraw(i, fate, sweeping);
      WithdrawalEvolves(b, Now(), i, head, fate);
    }

    lemma HomesHold()
      requires Core(0)
      ensures HomesOk(slots, nextSequence, p)
    {
      hide FatesOk, WithdrawalsOk, EntriesOk, HeapOk, CountOk, StopOk, WaitsOk, RoundOk, NoticesOk, HomesOk,
           FreeChain, PartitionOk;
    }

    lemma FatesHold()
      requires Core(0)
      ensures FatesOk(h, nextSequence, p)
    {
    }

    /** The worker loads the slot's activity and, if it will deliver, owes a delivery. */
    method LoadActivity(slot: nat, generation: nat, deliver: bool) returns (loaded: bool)
      requires Core(0) && h.window == None && HasOccupied(slots, slot, generation)
      modifies this`h
      ensures Core(0) && loaded == HasTimer(slot, generation)
      ensures h == old(h).(window := if loaded && deliver then Some(slots[slot].timer) else None)
      ensures loaded <==> slots[slot].timer !in h.silenced
      ensures loaded && !slots[slot].cancelRequested ==> slots[slot].timer !in h.withdrawn
    {
      hide SlotsOk, FatesOk, WithdrawalsOk, EntriesOk, HeapOk, CountOk, StopOk, WaitsOk, RoundOk, NoticesOk;
      loaded := HasTimer(slot, generation);
      LoadedIsNotSilenced(slots, active, freeSlot, nextSequence, p, h, slot);
      h := h.(window := if loaded && deliver then Some(slots[slot].timer) else None);
    }

    /** The load of an occupied slot's activity word, while foreign threads race for it. */
    method LoadInRace(slot: nat, generation: nat, deliver: bool, race: Race) returns (loaded: bool)
      requires Core(0) && h.window == None && HasOccupied(slots, slot, generation)
      modifies this`active, this`posted, this`h
      ensures Core(0) && Interferes(old(Now()), Now())
      ensures var t := slots[slot].timer;
        && h.window == (if loaded && deliver then Some(t) else None)
        && h.dropped == old(h).dropped
        && (t in h.raced ==> loaded && deliver)
        && (loaded && deliver && t in h.silenced ==> t in h.raced)
        && (!loaded ==> t in h.silenced)
        && (loaded && deliver && !slots[slot].cancelRequested && t in h.withdrawn ==> t in h.raced)
        && (loaded && !slots[slot].cancelRequested ==> t !in old(h).withdrawn)
        && (race == LateCancellation(slot, generation) && deliver && old(HasTimer(slot, generation)) ==>
              t in h.silenced && t in h.raced)
    {
      hide SlotsOk, FatesOk, WithdrawalsOk, EntriesOk, HeapOk, CountOk, StopOk, WaitsOk, RoundOk, NoticesOk, HomesOk,
           TopIsLive, WaitCovers, Interfered, HistoryGrows;
      ghost var a, active0 := Now(), active;
      HomesHold();
      ForeignTurn(race.before);
      ghost var h0 := h;
      loaded := LoadActivity(slot, generation, deliver);
      ghost var h1, active1, posted1 := h, active, posted;
      ForeignTurn(race.within);
      InterferenceGrows(active0, a.posted, a.h, active1, posted1, h0, h1, active, posted, h);
      RaceOutcome(slots, freeSlot, nextSequence, active, p, h1, h, active1, posted1, posted, slot);
    }

    /** Decides whether an occupied slot's completion is delivered. Without an outcome
        it is only dropped. */
    method ChooseFate(slot: nat, generation: nat, outcome: Option<Outcome>, race: Race)
      returns (ghost fate: Fate, delivered: bool)
      requires Core(0) && h.window == None && HasOccupied(slots, slot, generation)
      requires outcome == Some(Expired) ==> !slots[slot].cancelRequested
      requires outcome == None ==> slots[slot].timer in h.dropped
      modifies this`active, this`posted, this`h
      ensures Core(0) && Completes(old(Now()), Now()) && h.log == old(h).log && h.ended == old(h).ended
      ensures h.window.Some? ==> h.window == Some(fate.timer)
      ensures FateAllowed(fate, slots[slot].timer, h) && delivered == fate.Delivered?
      ensures IsExpiry(fate) ==> fate.timer !in old(h).withdrawn
      ensures race == LateCancellation(slot, generation) && outcome.Some? && old(HasTimer(slot, generation)) ==>
                fate.timer in h.silenced && fate.timer in h.raced
      ensures var t := slots[slot].timer;
        fate ==
        if outcome.Some? && (t !in h.silenced || t in h.raced) then Delivered(t, outcome.value)
        else Destroyed(t)
    {
      hide Core, HomesOk, Evolves, TopIsLive, WaitCovers, HistoryGrows, LateCancellation;
      ghost var a := Now();
      HomesHold();
      var loaded := LoadInRace(slot, generation, outcome.Some?, race);
      InterferenceEvolves(a, Now());
      delivered := loaded && outcome.Some?;
      fate := if delivered then Delivered(slots[slot].timer, outcome.value) else Destroyed(slots[slot].timer);
    }

    /** take_timer up to the point where the completion is handed back; stop_timers
        does the same for each slot it sweeps, without counting stale entries. */
    method ExtractTimer(slot: nat, generation: nat, notify: bool, race: Race, sweeping: bool)
      requires Valid() && HasOccupied(slots, slot, generation) && (sweeping ==> stopping)
      requires !notify ==> slots[slot].timer in h.dropped
      modifies this`timers, this`slots, this`active, this`freeSlot, this`staleCount,
               this`timerGeneration, this`armed, this`p, this`h, this`posted
      ensures Valid() && Completes(old(Now()), Now()) && |slots| == |old(slots)| && !slots[slot].occupied
      ensures Withdrawn(h, old(slots[slot].timer), notify) && p.home == old(p).home - {old(slots[slot].timer)}
      ensures race == LateCancellation(slot, generation) && notify && old(HasTimer(slot, generation)) ==>
                old(slots[slot].timer) in h.silenced && old(slots[slot].timer) in h.raced
    {
      hide SlotsOk, FatesOk, WithdrawalsOk, EntriesOk, HeapOk, CountOk, StopOk, WaitsOk, RoundOk, NoticesOk, HomesOk,
           PartitionOk, Evolves, FateAllowed, TopIsLive, WaitCovers, Vacate;
      ghost var a := Now();
      HomesHold();
      ghost var fate, _ := ChooseFate(slot, generation, if notify then Some(Cancelled) else None, race);
      ghost var b := Now();
      HomesHold();
      Retire(slot, fate, sweeping);
      HomesHold();
      EvolvesFurther(a, b, Now());
    }

    /** A silent withdrawal of the handle's timer is asked for. */
    ghost method AskToDrop(slot: nat, generation: nat)
      requires Valid()
      modifies this`h
      ensures Valid() && Completes(old(Now()), Now())
      ensures h == if HasOccupied(slots, slot, generation) then Drop(old(h), slots[slot].timer) else old(h)
    {
      hide SlotsOk, FatesOk, WithdrawalsOk, EntriesOk, HeapOk, CountOk, StopOk, WaitsOk, RoundOk, NoticesOk, HomesOk,
           PlacesEvolve, SlotsEvolve, TopIsLive, WaitCovers, HistoryGrows, Drop;
      ghost var a := Now();
      HomesHold();
      if HasOccupied(slots, slot, generation) {
        DropKeeps(slots, active, nextSequence, p, h, slots[slot].timer);
        DropEvolves(a, a.(h := Drop(h, slots[slot].timer)), slots[slot].timer);
        h := Drop(h, slots[slot].timer);
      } else {
        Unchanged(a);
      }
    }

    method TakeTimer(slot: nat, generation: nat, notify: bool, race: Race, onDrop: Turn)
      requires Valid()
      requires !notify && HasOccupied(slots, slot, generation) ==> slots[slot].timer in h.dropped
      modifies this
      ensures Valid() && Completes(old(Now()), Now())
      ensures !HasOccupied(slots, slot, generation)
      ensures !old(HasOccupied(slots, slot, generation)) ==> unchanged(this)
      ensures old(HasOccupied(slots, slot, generation)) ==> Withdrawn(h, old(slots[slot].timer), notify)
      ensures race == LateCancellation(slot, generation) && notify && old(HasTimer(slot, generation)) &&
              old(HasOccupied(slots, slot, generation)) ==>
        LostRace(h, old(slots[slot].timer), Cancelled)
      decreases onDrop, 1
    {
      hide SlotsOk, FatesOk, WithdrawalsOk, EntriesOk, HeapOk, CountOk, StopOk, WaitsOk, RoundOk, NoticesOk, HomesOk,
           PlacesEvolve, SlotsEvolve, TopIsLive, WaitCovers;
      ghost var a := Now();
      HomesHold();
      if !HasOccupied(slots, slot, generation) {
        Unchanged(a);
        return;
      }
      ExtractTimer(slot, generation, notify, race, false);
      ghost var b := Now();
      HomesHold();
      RunTurn(onDrop);
      HomesHold();
      EvolvesFurther(a, b, Now());
      WithdrawnStays(b.h, h, a.slots[slot].timer, notify, nextSequence, p, slots, active);
      EndedIsHomeless(h, nextSequence, p, a.slots[slot].timer);
      GenerationIsGone(a, Now(), slot, generation);
    }

    /** take_timer whose caller throws the completion away. */
    method DropTimer(slot: nat, generation: nat, race: Race, onDrop: Turn)
      requires Valid()
      modifies this
      ensures Valid() && Completes(old(Now()), Now())
      ensures !HasOccupied(slots, slot, generation)
      ensures !old(HasOccupied(slots, slot, generation)) ==> unchanged(this)
      ensures old(HasOccupied(slots, slot, generation)) ==> Withdrawn(h, old(slots[slot].timer), false)
      decreases onDrop, 2
    {
      hide Core, HomesOk, Evolves, TopIsLive, WaitCovers, HistoryGrows, HasOccupied, Withdrawn;
      ghost var a := Now();
      HomesHold();
      AskToDrop(slot, generation);
      ghost var b := Now();
      HomesHold();
      TakeTimer(slot, generation, false, race, onDrop);
      HomesHold();
      EvolvesFurther(a, b, Now());
    }

    /** Any finite sequence of operations by user code. */
    method RunTurn(turn: Turn)
      requires Valid()
      modifies this
      ensures Valid() && Completes(old(Now()), Now())
      ensures turn == Quiet ==> unchanged(this)
      ensures turn.Do? && turn.rest == Quiet && Undisturbed(turn.command) && !old(stopping) ==>
                SomeTimer() && h == old(h) && !stopping
      ensures turn.Do? && turn.rest == Quiet && turn.command.Foreign? && OnePost(turn.command.steps)
              && !old(stopping) ==>
                posted == old(posted) + [turn.command.steps[0].handler]
                && Frame() == old(Frame())
      decreases turn, 0
    {
      hide Core, HomesOk, Evolves;
      ghost var a := Now();
      HomesHold();
      match turn {
        case Quiet => Unchanged(a);
        case Do(command, rest) =>
          Execute(command);
          ghost var b := Now();
          HomesHold();
          RunTurn(rest);
          HomesHold();
          EvolvesFurther(a, b, Now());
      }
    }

    method Execute(command: Command)
      requires Valid()
      modifies this
      ensures Valid() && Completes(old(Now()), Now())
      ensures Undisturbed(command) && !old(stopping) ==> SomeTimer() && h == old(h) && !stopping
      ensures command.Foreign? && OnePost(command.steps) && !old(stopping) ==>
                posted == old(posted) + [command.steps[0].handler] && Frame() == old(Frame())
      decreases command, 5
    {
      hide SlotsOk, FatesOk, WithdrawalsOk, EntriesOk, HeapOk, CountOk, StopOk, WaitsOk, RoundOk, NoticesOk, HomesOk,
           Evolves, TopIsLive, WaitCovers;
      match command {
        case Schedule(_, _, _, _, _, _, _) =>
          var status, slot, generation, _ := ScheduleTimer(command);
          assert status == Scheduled ==> slots[slot].occupied;
        case Cancel(slot, generation, notify, race, onDrop) =>
          RequestCancellation(slot, generation, notify, race, onDrop);
        case Unregister(slot, generation, notify, race, onDrop) =>
          UnregisterTimer(slot, generation, notify, race, onDrop);
        case Stop(sweep) => StopTimers(sweep);
        case Foreign(steps) =>
          ghost var a := Now();
          HomesHold();
          ForeignTurn(steps);
          InterferenceEvolves(a, Now());
      }
    }

    /** request_timer_cancellation on the worker. */
    method RequestCancellation(slot: nat, generation: nat, notify: bool, race: Race, onDrop: Turn)
      requires Valid()
      modifies this
      ensures Valid() && Completes(old(Now()), Now())
      ensures !old(HasOccupied(slots, slot, generation)) ==> unchanged(this)
      ensures old(HasOccupied(slots, slot, generation)) ==> old(slots[slot].timer) in h.withdrawn
      ensures old(HasOccupied(slots, slot, generation)) && !notify ==>
        var t := old(slots[slot].timer); t in h.ended && h.ended[t] < |h.log| && h.log[h.ended[t]] == Destroyed(t)
      ensures old(HasOccupied(slots, slot, generation)) && notify ==>
        if old(slots[slot].cancelRequested) then unchanged(this) else
        && slots == old(slots)[slot := old(slots[slot]).(cancelRequested := true)]
        && posted == old(posted) + [Posted(slot, generation, true)]
        && h == old(h).(withdrawn := old(h).withdrawn + {old(slots[slot].timer)}) && slots[slot].timer !in h.ended
      decreases onDrop, 3
    {
      hide SlotsOk, FatesOk, WithdrawalsOk, EntriesOk, HeapOk, CountOk, StopOk, WaitsOk, RoundOk, NoticesOk, HomesOk,
           Evolves, TopIsLive, WaitCovers;
      if !notify {
        DropTimer(slot, generation, race, onDrop);
        return;
      }
      HomesHold();
      Unchanged(Now());
      if !HasOccupied(slots, slot, generation) {
        return;
      }
      FlaggedIsWithdrawn(slots, active, freeSlot, nextSequence, p, h, slot);
      if slots[slot].cancelRequested {
        return;
      }
      FlagCancellation(slot);
    }

    /** worker_timer_registration::unregister on the worker: a registration whose timer
        is no longer active does nothing. */
    method UnregisterTimer(slot: nat, generation: nat, notify: bool, race: Race, onDrop: Turn)
      requires Valid()
      modifies this
      ensures Valid() && Completes(old(Now()), Now())
      ensures !old(HasTimer(slot, generation)) ==> unchanged(this)
      ensures old(HasTimer(slot, generation)) ==> old(HasOccupied(slots, slot, generation))
      ensures old(HasTimer(slot, generation)) && !notify ==>
        var t := old(slots[slot].timer); t in h.ended && h.ended[t] < |h.log| && h.log[h.ended[t]] == Destroyed(t)
      ensures old(HasTimer(slot, generation)) && notify ==>
        if old(slots[slot].cancelRequested) then unchanged(this) else
        && slots == old(slots)[slot := old(slots[slot]).(cancelRequested := true)]
        && posted == old(posted) + [Posted(slot, generation, true)]
        && h == old(h).(withdrawn := old(h).withdrawn + {old(slots[slot].timer)}) && slots[slot].timer !in h.ended
      decreases onDrop, 4
    {
      hide SlotsOk, FatesOk, WithdrawalsOk, EntriesOk, HeapOk, CountOk, StopOk, WaitsOk, RoundOk, NoticesOk, HomesOk,
           Evolves, TopIsLive, WaitCovers;
      HomesHold();
      Unchanged(Now());
      if HasTimer(slot, generation) {
        ActiveIsOccupied(slots, active, p, h, slot);
        RequestCancellation(slot, generation, notify, race, onDrop);
      }
    }

    /** A notified cancellation on the worker itself: the entry goes stale now, the
        completion is delivered by the posted handler. */
    method FlagCancellation(i: nat)
      requires Valid() && i < |slots| && slots[i].occupied && !slots[i].cancelRequested
      modifies this`slots, this`timers, this`staleCount, this`timerGeneration, this`armed, this`p, this`h, this`posted
      ensures Valid() && Completes(old(Now()), Now())
      ensures slots == old(slots)[i := Flagged(old(slots[i]))] && h == Flag(old(h), old(slots[i].timer))
      ensures posted == old(posted) + [Posted(i, slots[i].generation, true)] && slots[i].timer !in h.ended
    {
      hide SlotsOk, FatesOk, WithdrawalsOk, EntriesOk, WaitsOk, RoundOk, NoticesOk, HomesOk, PartitionOk, Evolves,
           HeapOk, CountOk, StopOk, TopIsLive, WaitCovers, Live, Flagged, Flag;
      PendingTimer(slots, freeSlot, nextSequence, p, h, i);
      ghost var b, timers0, armed0 := Now(), timers, armed;
      SlotsSplit(slots, freeSlot, nextSequence, p);
      MarkCancelled(i);
      NoteStaleTimer();
      PrunedTopIsLive(stopping || dispatching, timers, slots);
      WithdrawalKeepsCover(stopping || dispatching, timers0, b.p.entries, b.slots, armed0, armedDeadline,
                           timers, p.entries, slots, armed, i);
      FlagEvolves(b, Now(), i);
      FlaggedSlot(b.slots[i], b.h, b.slots[i].timer);
    }

    method MarkCancelled(i: nat)
      requires Valid() && i < |slots| && slots[i].occupied && !slots[i].cancelRequested
      modifies this`slots, this`h, this`posted
      ensures Core(if stopping then 0 else 1) && h.window == None && slots[i].cancelRequested
      ensures slots == old(slots)[i := Flagged(old(slots[i]))] && h == Flag(old(h), old(slots[i].timer))
      ensures posted == old(posted) + [Posted(i, slots[i].generation, true)]
    {
      hide SlotsOk, FatesOk, WithdrawalsOk, EntriesOk, WaitsOk, RoundOk, NoticesOk, HomesOk, PartitionOk,
           HeapOk, CountOk, StopOk, Live, Flagged, Flag;
      SlotsSplit(slots, freeSlot, nextSequence, p);
      FlagKeepsStructure(slots, active, freeSlot, nextSequence, p, h, i);
      FlagCountsDead(slots, nextSequence, p, i, stopping, staleCount);
      FlagNotices(stopping, slots, posted, i);
      FlaggedSlot(slots[i], h, slots[i].timer);
      h := Flag(h, slots[i].timer);
      posted := posted + [Posted(i, slots[i].generation, true)];
      slots := slots[i := Flagged(slots[i])];
    }

    /** Publishes the stop: no entry, no wait, and every pending timer off the heap. */
    method BeginStop()
      requires Valid() && !stopping
      modifies this`stopping, this`timerGeneration, this`armed, this`timers, this`staleCount, this`p
      ensures Valid() && stopping && Evolves(old(Now()), Now())
      ensures p == old(p).(entries := {}, unqueued := old(p).home.Keys)
    {
      hide SlotsOk, FatesOk, WithdrawalsOk, EntriesOk, RoundOk, NoticesOk, HomesOk, Evolves, HeapOk, TopIsLive,
           WaitCovers;
      ghost var a := Now();
      HomesHold();
      StopStructure(slots, active, freeSlot, nextSequence, p, h, posted);
      stopping := true;
      timerGeneration := timerGeneration + 1;
      armed := false;
      timers := [];
      staleCount := 0;
      p := p.(entries := {}, unqueued := p.home.Keys);
      NothingToCover(timers, p.entries, slots, armed, armedDeadline);
      StopEvolves(a, Now());
    }

    /** stop_timers: every pending completion is delivered as cancelled, or dropped if
        its activity was already claimed. */
    method StopTimers(sweep: Sweep)
      requires Valid()
      modifies this
      ensures Valid() && Completes(old(Now()), Now()) && stopping
      ensures sweep == Done && !old(stopping) ==> forall t :: t in old(p).home ==> Withdrawn(h, t, true)
      ensures !old(stopping) ==> forall t :: t in old(p).home ==> t in h.dropped || Withdrawn(h, t, true)
      decreases sweep, 2
    {
      hide Core, HomesOk, Evolves, TopIsLive, WaitCovers;
      ghost var a := Now();
      HomesHold();
      FatesHold();
      Unchanged(a);
      if stopping {
        return;
      }
      BeginStop();
      var rest, index := sweep, 0;
      while index < |slots|
        invariant index <= |slots| && Valid() && stopping && Evolves(a, Now())
        invariant rest == sweep || rest < sweep
        invariant sweep == Done ==> rest == Done
        invariant sweep == Done ==> forall t :: t in a.p.home ==> t in p.home || Withdrawn(h, t, true)
        invariant forall i :: 0 <= i < index ==> !slots[i].occupied
      {
        if slots[index].occupied {
          ghost var b := Now();
          HomesHold();
          rest := SweepSlot(index, rest);
          HomesHold();
          EvolvesFurther(a, b, Now());
          if sweep == Done {
            OneLess(a.p.home, b);
          }
        }
        index := index + 1;
      }
      HomesHold();
      AllVacated(slots, nextSequence, p);
      SweptAreCancelled(a);
    }

    /** What was pending at the stop got the cancelled outcome unless somebody silenced it in
        time or the user code of the sweep dropped it. */
    lemma SweptAreCancelled(a: Snapshot)
      requires Core(0) && p.home == map[] && Evolves(a, Now())
      requires HomesOk(a.slots, a.next, a.p) && FatesOk(a.h, a.next, a.p)
      ensures forall t :: t in a.p.home ==> t in h.dropped || Withdrawn(h, t, true)
    {
      hide SlotsOk, EntriesOk, HeapOk, CountOk, StopOk, WaitsOk, RoundOk, NoticesOk, PlacesEvolve, SlotsEvolve;
      forall t | t in a.p.home ensures t in h.dropped || Withdrawn(h, t, true) {
        var k := h.ended[t];
        assert h.log[k].timer == t && FateOk(h.log[k], t, h);
        NoFateBefore(a.h, h, a.next, a.p, t);
      }
    }

    lemma StillWithdrawn(b: Snapshot, t: nat)
      requires Core(0) && Evolves(b, Now()) && Withdrawn(b.h, t, true)
      ensures Withdrawn(h, t, true)
    {
      WithdrawnStays(b.h, h, t, true, nextSequence, p, slots, active);
    }

    /** Sweeping one slot settles its timer and leaves the others settled or pending. */
    lemma OneLess(home: map<nat, nat>, b: Snapshot)
      requires Core(0) && Evolves(b, Now())
      requires forall t :: t in home ==> t in b.p.home || Withdrawn(b.h, t, true)
      requires forall t :: t in b.p.home ==> t in p.home || Withdrawn(h, t, true)
      ensures forall t :: t in home ==> t in p.home || Withdrawn(h, t, true)
    {
      hide Core, Withdrawn, Evolves;
      forall t | t in home && t !in b.p.home ensures Withdrawn(h, t, true) {
        StillWithdrawn(b, t);
      }
    }

    method SweepSlot(i: nat, sweep: Sweep) returns (rest: Sweep)
      requires Valid() && stopping && i < |slots| && slots[i].occupied
      modifies this
      ensures Valid() && stopping && Evolves(old(Now()), Now())
      ensures |slots| == |old(slots)| && !slots[i].occupied
      ensures forall k :: 0 <= k < |slots| && !old(slots)[k].occupied ==> !slots[k].occupied
      ensures rest == sweep || rest < sweep
      ensures Withdrawn(h, old(slots[i].timer), true)
      ensures sweep == Done ==> rest == Done && p.home == old(p).home - {old(slots[i].timer)}
      decreases sweep, 1
    {
      hide Core, HomesOk, Evolves, PlacesEvolve, SlotsEvolve, HistoryGrows, TopIsLive, WaitCovers;
      ghost var a := Now();
      HomesHold();
      PositiveGeneration(slots, nextSequence, p, i);
      rest := sweep;
      if sweep.Visit? {
        ExtractTimer(i, slots[i].generation, true, sweep.race, true);
        ghost var b := Now();
        HomesHold();
        RunTurn(sweep.turn);
        HomesHold();
        EvolvesFurther(a, b, Now());
        StoppedStaysVacant(a, b);
        StoppedStaysVacant(b, Now());
        StillWithdrawn(b, a.slots[i].timer);
        rest := sweep.rest;
      } else {
        ExtractTimer(i, slots[i].generation, true, Race([], []), true);
        HomesHold();
        StoppedStaysVacant(a, Now());
      }
    }

    /** arm_timer: one fresh wait for the earliest live deadline. Starting it may fail. */
    method ArmTimer(fails: bool) returns (failed: bool)
      requires Valid() && !dispatching
      modifies this`timers, this`staleCount, this`timerGeneration, this`armed, this`armedDeadline, this`waits, this`p
      ensures Valid() && TopLive() && (!failed ==> Covered())
      ensures Completes(old(Now()).(covered := false), Now())
      ensures p == old(p).(entries := p.entries)
      ensures failed ==> fails && !stopping && timers != []
      ensures timerGeneration == old(timerGeneration) + 1 && armed == (!stopping && timers != [] && !failed)
      ensures armed ==> armedDeadline == timers[0].deadline && waits == old(waits) + {timerGeneration}
    {
      hide SlotsOk, FatesOk, WithdrawalsOk, EntriesOk, HeapOk, CountOk, StopOk, RoundOk, NoticesOk, HomesOk,
           Evolves, TopIsLive, WaitCovers, Live;
      ghost var a := Now();
      HomesHold();
      NothingToCover(timers, p.entries, slots, armed, armedDeadline);
      failed := false;
      timerGeneration := timerGeneration + 1;
      armed := false;
      if !stopping {
        PruneFront();
        PrunedTopIsLive(stopping || dispatching, timers, slots);
        if timers == [] {
          EmptyHeapIsCovered(timers, p.entries, slots, armed, armedDeadline);
        } else {
          armedDeadline := timers[0].deadline;
          failed := fails;
          if !failed {
            waits := waits + {timerGeneration};
            armed := true;
            FrontCovers(timers, p.entries, slots);
          }
        }
      }
      ArmingEvolves(a, Now());
    }

    /** Takes a free slot, or a new one, for a completion about to be moved in. */
    method ReserveSlot() returns (i: nat)
      requires Valid()
      modifies this`slots, this`active, this`freeSlot, this`p
      ensures Valid() && Reserves(old(Now()), Now(), i)
    {
      hide SlotsOk, FatesOk, WithdrawalsOk, EntriesOk, HeapOk, StopOk, WaitsOk, RoundOk, NoticesOk, HomesOk,
           TopIsLive, WaitCovers, Live;
      HomesHold();
      HeadOfChain(slots, freeSlot, nextSequence, p);
      i := if freeSlot == NO_SLOT then |slots| else freeSlot;
      ReserveKeepsSlots(slots, freeSlot, nextSequence, p, i);
      ReserveKeepsEntries(slots, freeSlot, nextSequence, p, i);
      ReserveKeepsFates(slots, nextSequence, p, h, i, stopping, posted);
      ReserveKeepsWithdrawals(slots, active, nextSequence, p, h, i);
      SameCover(stopping || dispatching, timers, p, slots, WithReserved(slots, i), armed, armedDeadline);
      ghost var slots' := WithReserved(slots, i);
      if freeSlot == NO_SLOT {
        slots := slots + [FRESH_SLOT];
        active := active + [0];
      } else {
        freeSlot := slots[i].nextFree;
      }
      slots := slots[i := Reserve(slots[i])];
      assert slots == slots';
      p := Take(p, i);
    }

    /** The reserved slot becomes the next timer's, active but not yet in the heap. */
    method OccupySlot(i: nat, deadline: int)
      requires Valid() && !stopping && i in p.reserved && i < |slots|
      requires dispatching ==> deadline >= roundDeadline
      modifies this`slots, this`active, this`nextSequence, this`p
      ensures Core(0) && nextSequence == old(nextSequence) + 1
      ensures slots == old(slots)[i := Occupy(old(slots[i]), old(nextSequence))]
      ensures i < |active| && active[i] == slots[i].generation
      ensures p == Settle(old(p), i, old(nextSequence), deadline)
      ensures forall e :: e in p.entries ==> Live(slots, e) == Live(old(slots), e) && e.sequence < old(nextSequence)
      ensures old(nextSequence) !in h.withdrawn && old(nextSequence) !in h.ended && old(nextSequence) !in old(p.home)
      ensures old(nextSequence) !in old(p.deadlines) && !slots[i].cancelRequested && slots[i].generation > 0
    {
      hide SlotsOk, FatesOk, WithdrawalsOk, EntriesOk, HeapOk, WaitsOk, RoundOk, HomesOk, TopIsLive, WaitCovers, Live;
      ReservedSlot(slots, freeSlot, nextSequence, p, i);
      OccupyKeepsSlots(slots, freeSlot, nextSequence, p, i, deadline);
      OccupyKeepsFates(slots, active, nextSequence, p, h, i, deadline);
      OccupyKeepsEntries(slots, nextSequence, p, i, deadline);
      SettleFrame(p, i, nextSequence, deadline, slots, dispatching, roundDeadline);
      EntriesAreOld(slots, freeSlot, nextSequence, p, h, active);
      active := active[i := slots[i].generation];
      slots := slots[i := Occupy(slots[i], nextSequence)];
      p := Settle(p, i, nextSequence, deadline);
      nextSequence := nextSequence + 1;
    }

    /** push_back and push_heap. */
    method PushEntry(i: nat, t: nat, deadline: int)
      requires Core(0) && !stopping && i < |slots| && t in p.home && p.home[t] == i && i !in p.reserved
      requires t in p.deadlines && p.deadlines[t] == deadline && !slots[i].cancelRequested
      requires forall e :: e in p.entries ==> e.sequence != t
      modifies this`timers, this`p
      ensures Core(0) && timers != []
      ensures var e := Entry(deadline, t, i, slots[i].generation);
        && p == old(p).(entries := old(p).entries + {e}, unqueued := old(p).unqueued - {t})
        && (timers[0] == e || (old(timers) != [] && timers[0] == old(timers)[0]))
    {
      hide SlotsOk, FatesOk, WithdrawalsOk, EntriesOk, HeapOk, WaitsOk, RoundOk, NoticesOk, HomesOk, Live, Dead;
      ghost var e := Entry(deadline, t, i, slots[i].generation);
      HomesHold();
      PushKeepsEntries(slots, nextSequence, p, t);
      SlotsIgnoreQueue(slots, freeSlot, nextSequence, active, p, h, p.entries + {e}, p.unqueued - {t});
      EntriesAreOld(slots, freeSlot, nextSequence, p, h, active);
      var grown := timers + [Entry(deadline, t, i, slots[i].generation)];
      ghost var timers0 := timers;
      timers := ArrangeHeap(grown);
      PushedHeap(timers, timers0, p.entries, e);
      p := p.(entries := p.entries + {e}, unqueued := p.unqueued - {t});
    }

    method Publish(i: nat, deadline: int)
      requires Valid() && !stopping && i in p.reserved && i < |slots|
      requires dispatching ==> deadline >= roundDeadline
      modifies this`slots, this`active, this`nextSequence, this`timers, this`p
      ensures Valid() && Resolves(old(Now()), Now(), i) && (old(TopLive()) ==> TopLive())
      ensures old(Covered()) && (dispatching || (armed && armedDeadline <= deadline)) ==> Covered()
      ensures i < |slots| && slots[i].occupied && i < |active| && active[i] == slots[i].generation > 0
      ensures slots[i].timer == old(nextSequence) && slots[i].generation == old(slots[i].generation)
      ensures !slots[i].cancelRequested
      ensures old(nextSequence) in p.deadlines && p.deadlines[old(nextSequence)] == deadline && h == old(h)
    {
      hide SlotsOk, FatesOk, WithdrawalsOk, EntriesOk, WaitsOk, RoundOk, NoticesOk, HomesOk, CountOk, HeapOk,
           TopIsLive, WaitCovers, HistoryGrows;
      ghost var a, timers0 := Now(), timers;
      ReservedSlot(slots, freeSlot, nextSequence, p, i);
      NothingNew(h);
      OccupySlot(i, deadline);
      PushEntry(i, nextSequence - 1, deadline);
      PublishKeepsCover(stopping || dispatching, timers0, a.p.entries, a.slots, armed, armedDeadline, timers,
                        Entry(deadline, nextSequence - 1, i, slots[i].generation), slots);
    }

    /** push_back failed: the slot is rolled back and the completion destroyed. The user code
        its destruction may run comes once this is done, in Register. */
    method RollBack(i: nat, deadline: int)
      requires Valid() && !stopping && i in p.reserved && i < |slots|
      requires dispatching ==> deadline >= roundDeadline
      modifies this`slots, this`active, this`nextSequence, this`freeSlot, this`p, this`h
      ensures Valid() && Resolves(old(Now()), Now(), i)
      ensures (old(TopLive()) ==> TopLive()) && (old(Covered()) ==> Covered())
      ensures h == Conclude(Drop(old(h), old(nextSequence)), Destroyed(old(nextSequence)))
    {
      hide SlotsOk, FatesOk, WithdrawalsOk, EntriesOk, WaitsOk, RoundOk, NoticesOk, HomesOk, CountOk, HeapOk,
           TopIsLive, WaitCovers, HistoryGrows, Live, FateOk, Conclude, Resolves,
           Vacate, Settle, Occupy, Freed, FateAllowed, Dead;
      ghost var a, t, head := Now(), nextSequence, freeSlot;
      OccupySlot(i, deadline);
      SettledTimer(a.slots, a.p, i, t, deadline);
      SameCover(stopping || dispatching, timers, p, a.slots, slots, armed, armedDeadline);
      DestroyUnpublished(i, t);
      RollBackResolves(a, Now(), i, deadline, head);
    }

    /** The slot's timer was never in the heap: its completion is destroyed and the slot freed. */
    method DestroyUnpublished(i: nat, ghost t: nat)
      requires Core(0) && !stopping && i < |slots| && slots[i].occupied && slots[i].timer == t
      requires h.window == None && t !in h.withdrawn && t in p.home && t in p.deadlines && t in p.unqueued
      requires p.home[t] == i && (forall e :: e in p.entries ==> e.sequence != t)
      modifies this`slots, this`active, this`freeSlot, this`p, this`h
      ensures Core(0) && slots == old(slots)[i := Freed(old(slots[i]), old(freeSlot))]
      ensures p == Vacate(old(p), i, Some(t)) && h == Conclude(Drop(old(h), t), Destroyed(t))
      ensures (old(TopLive()) ==> TopLive()) && (old(Covered()) ==> Covered())
    {
      hide SlotsOk, FatesOk, WithdrawalsOk, EntriesOk, WaitsOk, RoundOk, NoticesOk, HomesOk, CountOk, HeapOk, StopOk,
           TopIsLive, WaitCovers, HistoryGrows, Live, FateOk, Conclude, Vacate, Freed, FateAllowed, Dead;
      ghost var slots0 := slots;
      HomesHold();
      VacatedWasNotQueued(slots, nextSequence, p, i, freeSlot);
      DropKeeps(slots, active, nextSequence, p, h, t);
      h := Drop(h, t);
      DestructionAllowed(slots, active, p, h, t);
      VacateFrame(p, i, Some(t), timers, stopping);
      ReleaseTimerSlot(i, Some(Destroyed(t)));
      SameCover(stopping || dispatching, timers, p, slots0, slots, armed, armedDeadline);
    }

    /** The queue stopped while the completion was being moved into its slot. */
    method AbandonReserved(i: nat)
      requires Valid() && stopping && i in p.reserved && i < |slots|
      modifies this`slots, this`active, this`freeSlot, this`p, this`h
      ensures Valid() && Resolves(old(Now()), Now(), i) && TopLive() && Covered() && p.home == old(p).home
    {
      hide SlotsOk, FatesOk, WithdrawalsOk, EntriesOk, WaitsOk, RoundOk, NoticesOk, HomesOk, CountOk, HeapOk,
           TopIsLive, WaitCovers, Resolves, Freed, Vacate;
      ghost var c, head := Now(), freeSlot;
      ReservedSlot(slots, freeSlot, nextSequence, p, i);
      ReleaseTimerSlot(i, None);
      NothingToCover(timers, p.entries, slots, armed, armedDeadline);
      AbandonResolves(c, Now(), i, head);
    }

    /** schedule_timer: the new entry's effective deadline is never before the snapshot
        of a round in progress. */
    method ScheduleTimer(request: Command) returns (status: Status, slot: nat, generation: nat, ghost timer: nat)
      requires Valid() && request.Schedule?
      modifies this
      ensures Valid() && Completes(old(Now()), Now())
      ensures status == WorkerStopping ==> stopping
      ensures status == Failed ==> request.pushFails || request.armFails
      ensures status == Scheduled ==> !request.pushFails
      ensures !old(stopping) && Undisturbed(request) ==> status == Scheduled
      ensures status == Scheduled ==>
        && HasOccupied(slots, slot, generation) && HasTimer(slot, generation) && slots[slot].timer == timer
        && !slots[slot].cancelRequested && !stopping && (request.onMove == Quiet ==> h == old(h))
        && timer in p.deadlines
        && p.deadlines[timer] ==
           if dispatching && request.deadline < roundDeadline then roundDeadline else request.deadline
      ensures status == Failed ==>
        timer in h.ended && h.ended[timer] < |h.log| && h.log[h.ended[timer]] == Destroyed(timer)
      decreases request, 4
    {
      hide Core, HomesOk, Evolves, Completes, TopIsLive, WaitCovers, PlacesEvolve, SlotsEvolve, HistoryGrows,
           HasOccupied;
      ghost var a := Now();
      HomesHold();
      if stopping {
        Unchanged(a);
        return WorkerStopping, 0, 0, 0;
      }
      var deadline := if dispatching && request.deadline < roundDeadline then roundDeadline else request.deadline;
      status, slot, generation, timer := Register(request, deadline);
      if status == Scheduled {
        ghost var d := Now();
        HomesHold();
        status := EnsureArmed(request, slot, generation, deadline, a.covered);
        HomesHold();
        SameRound(d, Now());
        ForgetCover(a, d);
        ForgetCover(d, Now());
        EvolvesFurther(a.(covered := false), d.(covered := false), Now().(covered := false));
        CoveredAfterAll(a, Now());
      }
    }

    /** Reserves a slot, moves the completion in and publishes the entry. The slot stays
        unpublished during the move, so that a reentrant stop cannot retire it. */
    method PlaceCompletion(request: Command, deadline: int)
      returns (status: Status, slot: nat, generation: nat, ghost timer: nat)
      requires Valid() && !stopping && request.Schedule? && (dispatching ==> deadline >= roundDeadline)
      modifies this
      ensures Valid() && Completes(old(Now()).(covered := false), Now())
      ensures dispatching == old(dispatching) && roundDeadline == old(roundDeadline)
      ensures status != Scheduled ==> Completes(old(Now()), Now())
      ensures old(Covered()) && (dispatching || (armed && armedDeadline <= deadline)) ==> Covered()
      ensures status == WorkerStopping ==> stopping
      ensures (status == Failed ==> request.pushFails) && (status == Scheduled ==> !request.pushFails)
      ensures !old(stopping) && Undisturbed(request) ==> status == Scheduled
      ensures status == Scheduled ==>
        && HasOccupied(slots, slot, generation) && HasTimer(slot, generation) && slots[slot].timer == timer
        && timer in p.deadlines && p.deadlines[timer] == deadline && !slots[slot].cancelRequested && !stopping
        && (request.onMove == Quiet ==> h == old(h))
      ensures status == Failed ==>
        timer in h.ended && h.ended[timer] < |h.log| && h.log[h.ended[timer]] == Destroyed(timer)
      decreases request, 2
    {
      hide Core, HomesOk, Evolves, Completes, TopIsLive, WaitCovers, PlacesEvolve, SlotsEvolve, HistoryGrows, Reserves,
           Resolves;
      ghost var a := Now();
      HomesHold();
      slot := ReserveSlot();
      ghost var b := Now();
      HomesHold();
      RunTurn(request.onMove);
      ghost var c := Now();
      HomesHold();
      StillReserved(a, b, c, slot);
      timer := nextSequence;
      if stopping {
        AbandonReserved(slot);
        status, generation := WorkerStopping, 0;
      } else if request.pushFails {
        RollBack(slot, deadline);
        status, generation := Failed, 0;
      } else {
        Publish(slot, deadline);
        status, generation := Scheduled, slots[slot].generation;
      }
      RegistrationEvolves(a, b, c, Now(), slot);
    }

    /** Registers the completion. One that was not published is destroyed once its slot is
        free, and its destruction may run user code. */
    method Register(request: Command, deadline: int)
      returns (status: Status, slot: nat, generation: nat, ghost timer: nat)
      requires Valid() && !stopping && request.Schedule? && (dispatching ==> deadline >= roundDeadline)
      modifies this
      ensures Valid() && Completes(old(Now()).(covered := false), Now())
      ensures dispatching == old(dispatching) && roundDeadline == old(roundDeadline)
      ensures status != Scheduled ==> Completes(old(Now()), Now())
      ensures old(Covered()) && (dispatching || (armed && armedDeadline <= deadline)) ==> Covered()
      ensures status == WorkerStopping ==> stopping
      ensures (status == Failed ==> request.pushFails) && (status == Scheduled ==> !request.pushFails)
      ensures !old(stopping) && Undisturbed(request) ==> status == Scheduled
      ensures status == Scheduled ==>
        && HasOccupied(slots, slot, generation) && HasTimer(slot, generation) && slots[slot].timer == timer
        && timer in p.deadlines && p.deadlines[timer] == deadline && !slots[slot].cancelRequested && !stopping
        && (request.onMove == Quiet ==> h == old(h))
      ensures status == Failed ==>
        timer in h.ended && h.ended[timer] < |h.log| && h.log[h.ended[timer]] == Destroyed(timer)
      decreases request, 3
    {
      hide Core, HomesOk, Evolves, Completes, TopIsLive, WaitCovers, PlacesEvolve, SlotsEvolve, HistoryGrows,
           HasOccupied;
      ghost var a := Now();
      HomesHold();
      status, slot, generation, timer := PlaceCompletion(request, deadline);
      if status != Scheduled {
        ghost var b := Now();
        HomesHold();
        RunTurn(request.onDrop);
        HomesHold();
        AfterDestruction(a, b, Now());
        if status == Failed {
          StillEnded(b, Now(), timer, Destroyed(timer));
        }
      }
    }

    /** Re-arms for the entry just pushed if no armed wait covers it; if that fails the
        entry is withdrawn, and if the rest cannot be re-armed either the queue stops. */
    method EnsureArmed(request: Command, slot: nat, generation: nat, deadline: int, ghost covered: bool)
      returns (status: Status)
      requires Valid() && request.Schedule? && HasOccupied(slots, slot, generation) && HasTimer(slot, generation)
      requires covered && (dispatching || (armed && armedDeadline <= deadline)) ==> Covered()
      modifies this
      ensures Valid() && Completes(old(Now()).(covered := false), Now()) && (covered ==> Covered())
      ensures status == Scheduled || (status == Failed && request.armFails)
      ensures status == Scheduled ==>
                slots == old(slots) && active == old(active) && p.deadlines == old(p).deadlines && h == old(h)
                && stopping == old(stopping)
      ensures status == Failed ==> var t := old(slots[slot].timer);
        t in h.ended && h.ended[t] < |h.log| && h.log[h.ended[t]] == Destroyed(t)
      decreases request, 3
    {
      hide Core, HomesOk, Evolves, Completes, TopIsLive, WaitCovers, PlacesEvolve, SlotsEvolve, HistoryGrows;
      ghost var a := Now();
      HomesHold();
      Unchanged(a);
      ForgetCover(a, a);
      CoveredAfterAll(a.(covered := false), a);
      status := Scheduled;
      if !dispatching && (!armed || deadline < armedDeadline) {
        var failed := ArmTimer(request.armFails);
        if failed {
          ghost var b := Now();
          HomesHold();
          UndoSchedule(request, slot, generation);
          HomesHold();
          ForgetCover(a, b);
          ForgetCover(b, Now());
          EvolvesFurther(a.(covered := false), b.(covered := false), Now().(covered := false));
          CoveredAfterAll(a.(covered := false), Now());
          status := Failed;
        }
      }
    }

    /** The wait could not be started: withdraw the new timer, then re-arm for the
        entries that were pending before; failing that too, stop the queue. */
    method UndoSchedule(request: Command, slot: nat, generation: nat)
      requires Valid() && !dispatching && request.Schedule? && HasOccupied(slots, slot, generation)
      modifies this
      ensures Valid() && Completes(old(Now()).(covered := false), Now()) && Covered()
      ensures var t := old(slots[slot].timer);
        t in h.ended && h.ended[t] < |h.log| && h.log[h.ended[t]] == Destroyed(t)
      decreases request, 2
    {
      hide Core, HomesOk, Evolves, Completes, TopIsLive, WaitCovers, PlacesEvolve, SlotsEvolve, HistoryGrows;
      ghost var a, t := Now(), slots[slot].timer;
      HomesHold();
      DropTimer(slot, generation, Race([], []), request.onDrop);
      ghost var b := Now();
      HomesHold();
      SameRound(a, b);
      var failed := ArmTimer(request.rearmFails);
      ghost var c := Now();
      HomesHold();
      ForgetCover(a, b);
      ForgetCover(b, c);
      EvolvesFurther(a.(covered := false), b.(covered := false), c.(covered := false));
      StillEnded(b, c, t, Destroyed(t));
      if failed {
        StopTimers(request.onStop);
        HomesHold();
        NothingToCover(timers, p.entries, slots, armed, armedDeadline);
        ForgetCover(c, Now());
        EvolvesFurther(a.(covered := false), c.(covered := false), Now().(covered := false));
        StillEnded(c, Now(), t, Destroyed(t));
      }
      CoveredAfterAll(a.(covered := false), Now());
    }

    /** pop_heap and pop_back of a live front entry: its timer is off the heap. */
    method PopLiveFront()
      requires Core(0) && !stopping && timers != [] && Live(slots, timers[0])
      modifies this`timers, this`p
      ensures Core(0)
      ensures var e := old(timers)[0];
        && p == old(p).(entries := old(p).entries - {e}, unqueued := old(p).unqueued + {e.sequence})
        && slots[e.slot].timer == e.sequence && e.sequence in p.home && p.home[e.sequence] == e.slot
        && e.sequence in p.deadlines && EntryOf(e.sequence, slots, p) == e && e in old(p).entries
    {
      hide SlotsOk, FatesOk, WithdrawalsOk, EntriesOk, HeapOk, WaitsOk, RoundOk, NoticesOk, HomesOk, Dead;
      ghost var e := timers[0];
      HomesHold();
      FrontIsEntry(timers, p.entries);
      PopLive(slots, nextSequence, p, e);
      SlotsIgnoreQueue(slots, freeSlot, nextSequence, active, p, h, p.entries - {e}, p.unqueued + {e.sequence});
      var rest := timers[1..];
      timers := ArrangeHeap(rest);
      HeapFrom(timers, rest, p.entries - {e});
      p := p.(entries := p.entries - {e}, unqueued := p.unqueued + {e.sequence});
    }

    /** What the loop of a firing round keeps; s is the moment the round began. */
    ghost predicate InRound(s: Snapshot, now: int)
      reads this
    {
      && Valid() && dispatching && roundDeadline == now && p.roundLimit == s.next <= nextSequence
      && s.dispatching && s.roundDeadline == now && s.p.roundLimit == s.next
      && (stopping ==> p.home == map[])
      && Advances(s, Now()) && ExpiredInOrder(s, Now(), now) && RestIsLater(s, Now())
    }

    /** What is known of a round's start. */
    ghost predicate StartOk(s: Snapshot) {
      && HomesOk(s.slots, s.next, s.p) && EntriesOk(s.slots, s.next, s.p)
      && (forall t :: t in s.p.home && s.slots[s.p.home[t]].cancelRequested ==> t in s.h.withdrawn)
    }

    /** One iteration: the due front entry is popped; a live one's timer gets its fate
        and its completion runs, or is dropped if its activity was already claimed. */
    method FireFront(ghost s: Snapshot, now: int, firing: Firing) returns (threw: bool)
      requires InRound(s, now) && StartOk(s)
      requires timers != [] && timers[0].deadline <= now && timers[0].sequence < s.next
      modifies this
      ensures InRound(s, now)
      ensures |StartEntries(p.entries, s.next)| < |StartEntries(old(p).entries, s.next)|
      ensures threw ==> firing.throws
      ensures old(RacesFront(firing.race)) ==> LostRace(h, old(timers)[0].sequence, Expired)
      ensures HistoryGrows(old(h), h)
    {
      hide LostRace, SlotsOk, FatesOk, WithdrawalsOk, EntriesOk, HeapOk, WaitsOk, RoundOk, NoticesOk, HomesOk, Dead,
           Evolves, PlacesEvolve, HistoryGrows, Live, ExpiredInOrder, RestIsLater, Due;
      threw := false;
      ghost var b := Now();
      var e := timers[0];
      FrontIsEntry(timers, p.entries);
      if !Live(slots, e) {
        PopDeadFront(0);
        staleCount := Less(staleCount);
        PopKeepsOrder(s, b, Now(), now);
        FewerStartEntries(b, Now(), e, s.next);
      } else {
        threw := FireLive(s, now, firing);
      }
    }

    method FireLive(ghost s: Snapshot, now: int, firing: Firing) returns (threw: bool)
      requires InRound(s, now) && StartOk(s)
      requires timers != [] && timers[0].deadline <= now && timers[0].sequence < s.next && Live(slots, timers[0])
      modifies this
      ensures InRound(s, now)
      ensures |StartEntries(p.entries, s.next)| < |StartEntries(old(p).entries, s.next)|
      ensures threw ==> firing.throws
      ensures old(RacesFront(firing.race)) ==> LostRace(h, old(timers)[0].sequence, Expired)
      ensures HistoryGrows(old(h), h)
    {
      hide RacesFront, LostRace, Core, HomesOk, Evolves, PlacesEvolve, HistoryGrows, Live, ExpiredInOrder,
           RestIsLater, StartOk;
      ghost var b := Now();
      var e := timers[0];
      assert e in p.entries by { FrontHolds(); }
      var delivered := ExpireFront(s, now, firing.race);
      ghost var c := Now();
      RunTurn(firing.turn);
      HomesHold();
      TurnKeepsRound(c, Now());
      TurnKeepsOrder(s, c, Now(), now);
      AdvancesFurther(s, c, Now());
      AdvancesByTurn(c, Now());
      AdvancesFurther(b, c, Now());
      TurnAddsOnlyNew(c, Now(), e);
      FewerStartEntries(b, Now(), e, s.next);
      if old(RacesFront(firing.race)) {
        LostStaysLost(c.h, h, e.sequence, Expired);
      }
      threw := delivered && firing.throws;
    }

    lemma FrontHolds()
      requires Core(0) && timers != []
      ensures timers[0] in p.entries
    {
      hide SlotsOk, FatesOk, WithdrawalsOk, EntriesOk, CountOk, StopOk, WaitsOk, RoundOk, NoticesOk;
      FrontIsEntry(timers, p.entries);
    }

    lemma FrontIsOld()
      requires Core(0) && timers != []
      ensures timers[0].sequence < nextSequence
    {
      FrontHolds();
      EntriesAreOld(slots, freeSlot, nextSequence, p, h, active);
    }

    /** The front entry's timer leaves the queue with its fate. */
    method ExpireFront(ghost s: Snapshot, now: int, race: Race) returns (delivered: bool)
      requires InRound(s, now) && StartOk(s)
      requires timers != [] && timers[0].deadline <= now && timers[0].sequence < s.next && Live(slots, timers[0])
      modifies this
      ensures InRound(s, now) && Advances(old(Now()), Now())
      ensures old(timers)[0] !in p.entries
      ensures old(RacesFront(race)) ==> LostRace(h, old(timers)[0].sequence, Expired)
    {
      hide SlotsOk, FatesOk, WithdrawalsOk, EntriesOk, HeapOk, CountOk, StopOk, WaitsOk, RoundOk, NoticesOk, HomesOk,
           Evolves, PlacesEvolve, HistoryGrows, ExpiredInOrder, RestIsLater, FateAllowed, Conclude, Vacate, Freed,
           MayEnd, Dead, LostRace, Live, HasTimer, LateCancellation;
      ghost var b := Now();
      var e := timers[0];
      ghost var fate;
      fate, delivered := ClaimFront(s, now, race);
      ghost var d, head := Now(), freeSlot;
      ReleaseTimerSlot(e.slot, Some(fate));
      ExpiryAdvances(d, Now(), e.slot, head, fate);
      FateKeepsOrder(s, d, Now(), now, fate);
      AdvancesFurther(b, d, Now());
      AdvancesFurther(s, d, Now());
      if old(RacesFront(race)) {
        LostByFate(d.h, e.sequence, Expired);
      }
    }

    /** Pops the live front entry and decides its timer's fate. */
    method ClaimFront(ghost s: Snapshot, now: int, race: Race) returns (ghost fate: Fate, delivered: bool)
      requires InRound(s, now) && StartOk(s)
      requires timers != [] && timers[0].deadline <= now && timers[0].sequence < s.next && Live(slots, timers[0])
      modifies this
      ensures Core(0) && !stopping && dispatching && roundDeadline == now && p.roundLimit == s.next <= nextSequence
      ensures Advances(s, Now()) && Advances(old(Now()), Now())
      ensures ExpiredInOrder(s, Now(), now) && RestIsLater(s, Now()) && MayEnd(s, Now(), now, fate)
      ensures var e := old(timers)[0];
        && fate.timer == e.sequence && p.unqueued == {e.sequence} && e !in p.entries && e.sequence !in h.ended
        && HasOccupied(slots, e.slot, e.generation) && slots[e.slot].timer == e.sequence
        && e.sequence in p.home && e.sequence in p.deadlines && p.home[e.sequence] < |slots|
        && EntryOf(e.sequence, slots, p) == e
      ensures FateAllowed(fate, fate.timer, h) && (h.window.Some? ==> h.window == Some(fate.timer))
      ensures delivered == fate.Delivered?
      ensures old(RacesFront(race)) ==>
                fate == Delivered(old(timers)[0].sequence, Expired) && fate.timer in h.silenced && fate.timer in h.raced
    {
      hide SlotsOk, FatesOk, WithdrawalsOk, EntriesOk, HeapOk, CountOk, StopOk, WaitsOk, RoundOk, NoticesOk, HomesOk,
           Evolves, PlacesEvolve, HistoryGrows, ExpiredInOrder, RestIsLater, Due, FateAllowed, Precedes, Dead;
      ghost var b := Now();
      var e := timers[0];
      HomesHold();
      NotStopping(stopping, timers, p.unqueued, p.home);
      FrontPrecedesRest(s, b, timers);
      PopLiveFront();
      ghost var c := Now();
      HomesHold();
      PopKeepsOrder(s, b, c, now);
      EarlierPrecede(s, b, e);
      PendingTimer(slots, freeSlot, nextSequence, p, h, e.slot);
      fate, delivered := ChooseFate(e.slot, e.generation, Some(Expired), race);
      HomesHold();
      TurnKeepsRound(c, Now());
      AdvancesFurther(b, c, Now());
      TurnKeepsOrder(s, c, Now(), now);
      AdvancesFurther(s, c, Now());
      if IsExpiry(fate) {
        FrontIsDue(s, b, e, now);
      }
    }

    /** fire_timers: one pass over what was due when it began. */
    method FireTimers(now: int, firings: seq<Firing>, rearmFails: bool, onStop: Sweep) returns (threw: bool)
      requires Valid() && !stopping && !dispatching && !armed
      modifies this
      ensures Settled() && !dispatching && HistoryGrows(old(h), h) && HandlesHold(old(slots), slots)
      ensures ExpiredInOrder(old(Now()), Now(), now)
      ensures !threw ==> AllDueServed(old(Now()), Now(), now)
      ensures old(FiresFirst(now, firings)) ==> LostRace(h, old(timers)[0].sequence, Expired)
    {
      hide LostRace, Live, LateCancellation, Core, HomesOk, Evolves, PlacesEvolve, SlotsEvolve, HistoryGrows,
           ExpiredInOrder, AllDueServed, TopIsLive, WaitCovers,
           HeapOk;
      ghost var s0 := Now();
      if timers != [] { FrontIsOld(); }
      ghost var s := BeginRound(now);
      threw := FireDue(s, now, firings);
      ghost var b := Now();
      HomesHold();
      EndRound();
      ghost var c := Now();
      HomesHold();
      var failed := ArmTimer(rearmFails);
      HomesHold();
      ForgetCover(c, Now());
      SameRound(c, Now());
      if failed {
        ghost var d := Now();
        StopTimers(onStop);
        HomesHold();
        NothingToCover(timers, p.entries, slots, armed, armedDeadline);
        ForgetCover(d, Now());
        TurnKeepsRound(d, Now());
        EvolvesFurther(c.(covered := false), d.(covered := false), Now().(covered := false));
      }
      RoundIsOver(s0, s, b, c, Now(), now);
      if old(FiresFirst(now, firings)) {
        LostStaysLost(b.h, h, old(timers)[0].sequence, Expired);
      }
    }

    method BeginRound(now: int) returns (ghost s: Snapshot)
      requires Valid() && !stopping && !dispatching && !armed
      modifies this`dispatching, this`roundDeadline, this`p
      ensures s == Now() && InRound(s, now) && StartOk(s) && !stopping
      ensures s == old(Now()).(dispatching := true, roundDeadline := now, p := s.p, topLive := s.topLive,
                covered := s.covered)
      ensures s.p == old(p).(roundLimit := s.p.roundLimit)
    {
      hide SlotsOk, FatesOk, WithdrawalsOk, EntriesOk, HeapOk, CountOk, StopOk, RoundOk, NoticesOk, HomesOk,
           TopIsLive, WaitCovers, Evolves;
      HomesHold();
      RoundStructure(slots, freeSlot, nextSequence, active, p, h, nextSequence, now);
      FlaggedAreWithdrawn(slots, active, freeSlot, nextSequence, p, h);
      dispatching := true;
      roundDeadline := now;
      p := p.(roundLimit := nextSequence);
      s := Now();
      RoundBegins(s, now);
    }

    /** The round's loop. */
    method FireDue(ghost s: Snapshot, now: int, firings: seq<Firing>) returns (threw: bool)
      requires s == Now() && InRound(s, now) && StartOk(s)
      modifies this
      ensures InRound(s, now)
      ensures !threw ==> AllDueServed(s, Now(), now)
      ensures old(FiresFirst(now, firings)) && old(timers)[0].sequence < s.next ==>
                LostRace(h, old(timers)[0].sequence, Expired)
    {
      hide LostRace, Live, HasTimer, LateCancellation, Core, HomesOk, Evolves, PlacesEvolve, HistoryGrows,
           ExpiredInOrder, RestIsLater, AllDueServed, Advances;
      threw := false;
      var k := 0;
      var limit := nextSequence;
      while !threw && timers != [] && timers[0].deadline <= now && timers[0].sequence < limit
        invariant InRound(s, now)
        invariant k == 0 ==> unchanged(this) && !threw
        invariant k > 0 && old(FiresFirst(now, firings)) && old(timers)[0].sequence < s.next ==>
                    LostRace(h, old(timers)[0].sequence, Expired)
        decreases |StartEntries(p.entries, s.next)|
      {
        ghost var h0 := h;
        threw := FireFront(s, now, if k < |firings| then firings[k] else Firing(Race([], []), Quiet, false));
        if k > 0 && old(FiresFirst(now, firings)) && old(timers)[0].sequence < s.next {
          LostStaysLost(h0, h, old(timers)[0].sequence, Expired);
        }
        k := k + 1;
      }
      if !threw {
        LoopLeavesNothing(s, now);
      }
    }

    lemma LoopLeavesNothing(s: Snapshot, now: int)
      requires InRound(s, now) && StartOk(s)
      requires timers == [] || timers[0].deadline > now || timers[0].sequence >= s.next
      ensures AllDueServed(s, Now(), now)
    {
      hide FatesOk, WithdrawalsOk, EntriesOk, HeapOk, CountOk, StopOk, WaitsOk, NoticesOk, HomesOk, Evolves,
           PlacesEvolve, HistoryGrows, ExpiredInOrder, RestIsLater, AllDueServed;
      HomesHold();
      GateHidesNothing(s, Now(), active, timers, now);
    }

    method EndRound()
      requires Valid() && dispatching
      modifies this`dispatching
      ensures Valid() && !dispatching && !armed
    {
      hide SlotsOk, FatesOk, WithdrawalsOk, EntriesOk, HeapOk, CountOk, StopOk, NoticesOk, HomesOk;
      dispatching := false;
    }

    /** The handler of one native wait. A wait fails only when it was cancelled, and
        cancelling moves the generation on. */
    method WaitCompleted(generation: nat, error: bool, now: int, firings: seq<Firing>, rearmFails: bool, onStop: Sweep)
        returns (threw: bool)
      requires Settled() && !dispatching && generation in waits && (error ==> generation != timerGeneration)
      modifies this
      ensures Settled() && !dispatching && HistoryGrows(old(h), h) && HandlesHold(old(slots), slots)
      ensures old(generation != timerGeneration) ==> !threw && h == old(h) && p == old(p) && slots == old(slots)
      ensures old(generation == timerGeneration) ==>
        && ExpiredInOrder(old(Now()), Now(), now)
        && (!threw ==> AllDueServed(old(Now()), Now(), now))
        && (!error && old(FiresFirst(now, firings)) ==> LostRace(h, old(timers)[0].sequence, Expired))
    {
      hide SlotsOk, FatesOk, WithdrawalsOk, EntriesOk, HeapOk, CountOk, StopOk, RoundOk, NoticesOk, HomesOk,
           HistoryGrows, ExpiredInOrder, AllDueServed, TopIsLive;
      SameHandles(slots);
      NothingNew(h);
      ghost var a := Now();
      waits := waits - {generation};
      if error || generation != timerGeneration {
        return false;
      }
      armed := false;
      ghost var b := Now();
      threw := FireTimers(now, firings, rearmFails, onStop);
      RoundFromHandler(a, b, Now(), now);
    }

    /** A queued cancellation handler; it leaves the io_context's queue as it returns. */
    method RunPosted(k: nat, race: Race, turn: Turn)
      requires Settled() && !dispatching && k < |posted|
      modifies this
      ensures Settled() && !dispatching && HistoryGrows(old(h), h) && HandlesHold(old(slots), slots)
      ensures old(posted[..k] + posted[k + 1..]) <= posted
      ensures var handler := old(posted[k]);
        && (!old(HasOccupied(slots, handler.slot, handler.generation)) ==>
              h == old(h) && p == old(p) && slots == old(slots) && active == old(active))
        && (old(HasOccupied(slots, handler.slot, handler.generation)) ==>
              Withdrawn(h, old(slots[handler.slot].timer), handler.notify))
        && (old(HasOccupied(slots, handler.slot, handler.generation)) && old(HasTimer(handler.slot, handler.generation))
            && handler.notify && race == LateCancellation(handler.slot, handler.generation) ==>
              LostRace(h, old(slots[handler.slot].timer), Cancelled))
    {
      hide SlotsOk, FatesOk, WithdrawalsOk, EntriesOk, HeapOk, CountOk, StopOk, WaitsOk, RoundOk, NoticesOk, HomesOk,
           Evolves, HistoryGrows, TopIsLive, WaitCovers, HasOccupied;
      ghost var a := Now();
      HomesHold();
      var handler := posted[k];
      if handler.notify {
        TakeTimer(handler.slot, handler.generation, true, race, turn);
      } else {
        DropTimer(handler.slot, handler.generation, race, turn);
      }
      HomesHold();
      TurnKeepsRound(a, Now());
      TurnKeepsCover(a, Now());
      HandlerIsDone(stopping, slots, freeSlot, nextSequence, p, posted, k);
      NoneIsLost(a, Now());
      OneLeaves(a.posted, posted, k);
      posted := posted[..k] + posted[k + 1..];
    }

    lemma NoneIsLost(a: Snapshot, b: Snapshot)
      requires Evolves(a, b)
      ensures a.posted <= b.posted
    {
    }

    lemma OneLeaves(before: seq<Posted>, after: seq<Posted>, k: nat)
      requires before <= after && k < |before|
      ensures before[..k] + before[k + 1..] <= after[..k] + after[k + 1..]
    {
    }

    /** One handler run by the worker's io_context. */
    method RunHandler(handler: Handler)
      requires Settled() && !dispatching
      modifies this
      ensures Settled() && !dispatching && HistoryGrows(old(h), h) && HandlesHold(old(slots), slots)
      ensures handler.UserWork? && handler.turn.Do? && handler.turn.rest == Quiet && !old(stopping) ==>
        && (Undisturbed(handler.turn.command) ==> SomeTimer() && h == old(h) && !stopping)
        && (handler.turn.command.Foreign? && OnePost(handler.turn.command.steps) ==>
              posted == old(posted) + [handler.turn.command.steps[0].handler] && Frame() == old(Frame()))
      ensures handler.Cancellation? && handler.index < |old(posted)| ==>
        var due := old(posted)[handler.index];
        old(HasOccupied(slots, due.slot, due.generation)) && old(HasTimer(due.slot, due.generation)) && due.notify
        && handler.race == LateCancellation(due.slot, due.generation) ==>
          LostRace(h, old(slots[due.slot].timer), Cancelled)
      ensures handler.WaitEnds? && !handler.error && handler.generation == old(timerGeneration) &&
              handler.generation in old(waits) ==>
        (old(FiresFirst(handler.now, handler.firings)) ==> LostRace(h, old(timers)[0].sequence, Expired))
    {
      hide Core, HomesOk, Evolves, HistoryGrows, ExpiredInOrder, AllDueServed, TopIsLive, WaitCovers, LostRace,
           HasOccupied, HandlesHold, HasTimer, LateCancellation, Undisturbed, OnePost, Live;
      SameHandles(slots);
      NothingNew(h);
      match handler {
        case WaitEnds(generation, error, now, firings, rearmFails, onStop) =>
          if generation in waits && (error ==> generation != timerGeneration) {
            var _ := WaitCompleted(generation, error, now, firings, rearmFails, onStop);
          }
        case Cancellation(k, race, turn) =>
          if k < |posted| {
            RunPosted(k, race, turn);
          }
        case UserWork(turn) =>
          ghost var a := Now();
          RunTurn(turn);
          HomesHold();
          TurnKeepsRound(a, Now());
          TurnKeepsCover(a, Now());
      }
    }

    /** Any run of the worker: between handlers the queue is settled, what has become of a
        timer never changes, and a handle whose timer is gone stays dead, whoever has the
        slot by then. */
    method Run(handlers: seq<Handler>)
      requires Settled() && !dispatching
      modifies this
      ensures Settled() && !dispatching && HistoryGrows(old(h), h) && HandlesHold(old(slots), slots)
    {
      hide Core, HistoryGrows, HandlesHold, TopIsLive, WaitCovers;
      NothingNew(h);
      SameHandles(slots);
      for k := 0 to |handlers|
        invariant Settled() && !dispatching && HistoryGrows(old(h), h) && HandlesHold(old(slots), slots)
      {
        ghost var h0, slots0 := h, slots;
        RunHandler(handlers[k]);
        HistoryGrowsFurther(old(h), h0, h);
        HandlesHoldFurther(old(slots), slots0, slots);
      }
    }

    /** What Settled says of each timer. */
    lemma EveryTimerHasOneFate(t: nat)
      requires Valid() && t < nextSequence
      ensures t in p.home ==> forall k :: 0 <= k < |h.log| ==> h.log[k].timer != t
      ensures t !in p.home ==> exists k :: 0 <= k < |h.log| && h.log[k].timer == t
      ensures forall j, k :: 0 <= j < |h.log| && 0 <= k < |h.log| && h.log[j].timer == t && h.log[k].timer == t ==>
              j == k
      ensures Delivered(t, Expired) in h.log ==> t !in h.withdrawn || t in h.raced
      ensures t in h.silenced && t !in p.home ==>
                (t in h.raced <==> exists outcome :: Delivered(t, outcome) in h.log)
    {
      hide SlotsOk, EntriesOk, HeapOk, CountOk, StopOk, WaitsOk, RoundOk, NoticesOk;
      if t !in p.home {
        var k := h.ended[t];
        assert h.log[k].timer == t && FateOk(h.log[k], t, h);
        assert h.log[k] in h.log;
      }
    }

    /** A timer that was withdrawn, though neither silently nor on another thread, is never destroyed
        unheard: between handlers it has got the cancelled outcome, or the handler that is to deliver
        it is queued. */
    lemma NotifiedIsHeard(t: nat)
      requires Settled() && t in h.withdrawn && t !in h.dropped && t !in h.silenced
      ensures Destroyed(t) !in h.log
      ensures t !in p.home ==> Delivered(t, Cancelled) in h.log
      ensures t in p.home ==> !stopping && p.home[t] < |slots|
                              && Posted(p.home[t], slots[p.home[t]].generation, true) in posted
    {
      hide SlotsOk, EntriesOk, HeapOk, CountOk, StopOk, WaitsOk, RoundOk;
      forall k | 0 <= k < |h.log| && h.log[k].timer == t ensures h.log[k] == Delivered(t, Cancelled) {
        assert h.ended[t] == k && FateOk(h.log[k], t, h);
        assert h.log[k] == Delivered(t, h.log[k].outcome) && t !in h.raced;
        assert h.log[k].outcome == Expired || h.log[k].outcome == Cancelled;
      }
      if t !in p.home {
        assert h.log[h.ended[t]] == Delivered(t, Cancelled);
      }
    }

    /** While the queue runs, wherever user code can run: each timer that is pending and
        not flagged has exactly one heap entry, and the stale count is exact. */
    lemma HeapIsExact(i: nat)
      requires Valid() && !stopping && i < |slots| && slots[i].occupied && !slots[i].cancelRequested
      ensures exists e :: e in p.entries && e.slot == i && e.generation == slots[i].generation
      ensures forall e, f :: (e in p.entries && f in p.entries && e.slot == f.slot == i &&
                              e.generation == f.generation == slots[i].generation) ==> e == f
      ensures multiset(timers) == multiset(p.entries) && staleCount == |Dead(p.entries, slots)|
    {
      hide WithdrawalsOk, FatesOk, WaitsOk, RoundOk, NoticesOk, StopOk;
      var t := slots[i].timer;
      assert t in p.home && EntryOf(t, slots, p) in p.entries;
      forall e | e in p.entries && e.slot == i && e.generation == slots[i].generation ensures e.sequence == t {
        assert EntryOk(e, slots, nextSequence, p);
      }
    }

    /** The earliest entry of a running queue that has a timer and no silenced one. */
    method ActiveFront() returns (e: Entry)
      requires Settled() && !dispatching && !stopping && SomeTimer() && h.silenced == {}
      ensures timers != [] && e == timers[0] && Live(slots, e) && HasTimer(e.slot, e.generation)
      ensures timerGeneration in waits
    {
      hide WaitsOk, RoundOk, NoticesOk, StopOk;
      ghost var i :| 0 <= i < |slots| && slots[i].occupied && !slots[i].cancelRequested
                        && HasTimer(i, slots[i].generation);
      HeapIsExact(i);
      assert |timers| > 0 by { assert multiset(timers) != multiset{}; }
      e := timers[0];
      LoadedIsNotSilenced(slots, active, freeSlot, nextSequence, p, h, e.slot);
      FrontHolds();
      NothingIsForgotten(e);
    }

    /** Between handlers: some armed wait ends no later than every live deadline. */
    lemma NothingIsForgotten(e: Entry)
      requires Settled() && !stopping && !dispatching && e in p.entries && Live(slots, e)
      ensures armed && timerGeneration in waits && armedDeadline <= e.deadline
    {
      hide SlotsOk, EntriesOk, WithdrawalsOk, FatesOk, RoundOk, NoticesOk, StopOk, HeapOk, CountOk;
    }
  }

  /** A successful silent cancellation on another thread does not always keep the
      completion from running. A timer is scheduled, another thread asks for its notified
      cancellation, and a third claims the activity word after the worker's handler has
      loaded it: the cancelled outcome is delivered all the same. */
  method CancellationCanLoseTheRace() returns (q: TimerQueue, ghost timer: nat)
    ensures q.Settled() && LostRace(q.h, timer, Cancelled)
  {
    hide LostRace, HistoryGrows, TimerQueue.Core, TimerQueue.TopLive, TimerQueue.Covered, TimerQueue.SomeTimer,
         LateCancellation;
    q := new TimerQueue();
    q.RunHandler(UserWork(Do(UNDISTURBED, Quiet)));
    var e := q.ActiveFront();
    var n := |q.posted|;
    timer := q.slots[e.slot].timer;
    q.RunHandler(UserWork(Do(Foreign([Post(Posted(e.slot, e.generation, true))]), Quiet)));
    q.RunHandler(Cancellation(n, LateCancellation(e.slot, e.generation), Quiet));
  }

  /** The same at expiry: the claim falls between the round's load and its store, and the
      timer that was silenced expires. */
  method SilencedTimerCanExpire() returns (q: TimerQueue, ghost timer: nat)
    ensures q.Settled() && LostRace(q.h, timer, Expired)
  {
    hide LostRace, HistoryGrows, TimerQueue.Core, TimerQueue.TopLive, TimerQueue.Covered, TimerQueue.SomeTimer,
         LateCancellation;
    q := new TimerQueue();
    q.RunHandler(UserWork(Do(UNDISTURBED, Quiet)));
    var e := q.ActiveFront();
    timer := e.sequence;
    var firing := Firing(LateCancellation(e.slot, e.generation), Quiet, false);
    q.RunHandler(WaitEnds(q.timerGeneration, false, e.deadline, [firing], false, Done));
  }
}
