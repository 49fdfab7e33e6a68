/** Firing rounds: what a round has done so far, and that it serves what was due, in order
    (ruvia-core/src/worker_timers.cpp). */
module TimerRounds {
  import opened Sequences
  import opened TimerHeap
  import opened TimerState
  import opened TimerSteps
  import opened Wrappers

  // ----- firing rounds

  /** The timers a round with the given snapshot time owes an expiry, unless they are
      withdrawn before their turn: those in the heap at its start that are due. */
  ghost function Due(s: Snapshot, now: int): set<nat> {
    set t | t in s.p.home && t in s.p.deadlines && s.p.deadlines[t] <= now && s.p.home[t] < |s.slots|
            && !s.slots[s.p.home[t]].cancelRequested
  }

  ghost predicate Precedes(deadlines: map<nat, int>, t: nat, u: nat) {
    t in deadlines && u in deadlines && (deadlines[t] < deadlines[u] || (deadlines[t] == deadlines[u] && t < u))
  }

  /** Since the round's start only due timers expired, each once, earliest first. */
  ghost predicate ExpiredInOrder(s: Snapshot, b: Snapshot, now: int) {
    var n := |s.h.log|;
    && s.h.log <= b.h.log
    && (forall k :: n <= k < |b.h.log| && IsExpiry(b.h.log[k]) ==> b.h.log[k].timer in Due(s, now))
    && (forall j, k :: n <= j < k < |b.h.log| && IsExpiry(b.h.log[j]) && IsExpiry(b.h.log[k]) ==>
          Precedes(s.p.deadlines, b.h.log[j].timer, b.h.log[k].timer))
  }

  /** ... and before every entry that was there at the start and still is. */
  ghost predicate RestIsLater(s: Snapshot, b: Snapshot) {
    forall k, e :: |s.h.log| <= k < |b.h.log| && IsExpiry(b.h.log[k]) && e in b.p.entries && e.sequence < s.next ==>
      Precedes(s.p.deadlines, b.h.log[k].timer, e.sequence)
  }

  /** Every due timer expired, unless something withdrew it. */
  ghost predicate AllDueServed(s: Snapshot, b: Snapshot, now: int) {
    forall t :: t in Due(s, now) ==>
      t in b.h.withdrawn
      || (t in b.h.ended && b.h.ended[t] < |b.h.log| && b.h.log[b.h.ended[t]] == Delivered(t, Expired))
  }

  /** Evolves, but with expiries. */
  ghost predicate Advances(a: Snapshot, b: Snapshot) {
    && HistoryGrows(a.h, b.h) && a.next <= b.next && PlacesEvolve(a, b) && HandlesHold(a.slots, b.slots)
    && b.dispatching == a.dispatching && b.roundDeadline == a.roundDeadline
  }

  lemma AdvancesFurther(a: Snapshot, b: Snapshot, c: Snapshot)
    requires Advances(a, b) && (Advances(b, c) || Completes(b, c))
    ensures Advances(a, c)
  {
    hide PlacesEvolve, HandlesHold, HistoryGrows;
    HistoryGrowsFurther(a.h, b.h, c.h);
    PlacesEvolveFurther(a, b, c);
    HandlesHoldFurther(a.slots, b.slots, c.slots);
  }

  lemma TurnKeepsOrder(s: Snapshot, b: Snapshot, c: Snapshot, now: int)
    requires ExpiredInOrder(s, b, now) && RestIsLater(s, b) && s.next <= b.next
    requires Completes(b, c)
    ensures ExpiredInOrder(s, c, now) && RestIsLater(s, c)
  {
    hide SlotsEvolve, Precedes, Due;
    forall k | |s.h.log| <= k < |c.h.log| && IsExpiry(c.h.log[k]) ensures k < |b.h.log| && c.h.log[k] == b.h.log[k] {}
  }

  /** Popping a dead front entry. */
  lemma PopKeepsOrder(s: Snapshot, b: Snapshot, c: Snapshot, now: int)
    requires ExpiredInOrder(s, b, now) && RestIsLater(s, b) && Advances(s, b)
    requires c == b.(p := b.p.(entries := c.p.entries, unqueued := c.p.unqueued), topLive := c.topLive,
                      covered := c.covered)
    requires c.p.entries <= b.p.entries
    ensures ExpiredInOrder(s, c, now) && RestIsLater(s, c) && Advances(s, c) && Advances(b, c)
  {
    hide Precedes, Due, HistoryGrows;
    NothingNew(b.h);
  }

  /** A live front entry of the round's start is due, and its timer is one the round owes. */
  lemma FrontIsDue(s: Snapshot, b: Snapshot, e: Entry, now: int)
    requires HomesOk(b.slots, b.next, b.p) && EntriesOk(b.slots, b.next, b.p)
    requires HomesOk(s.slots, s.next, s.p) && EntriesOk(s.slots, s.next, s.p) && Advances(s, b)
    requires e in b.p.entries && Live(b.slots, e) && e.sequence < s.next && e.deadline <= now
    requires forall t :: t in s.p.home && s.slots[s.p.home[t]].cancelRequested ==> t in s.h.withdrawn
    requires e.sequence !in b.h.withdrawn
    ensures e.sequence in Due(s, now)
  {
    assert EntryOk(e, b.slots, b.next, b.p);
    assert e.sequence in b.p.home;
  }

  lemma EarlierPrecede(s: Snapshot, b: Snapshot, e: Entry)
    requires RestIsLater(s, b) && e in b.p.entries && e.sequence < s.next
    ensures forall k :: |s.h.log| <= k < |b.h.log| && IsExpiry(b.h.log[k]) ==>
              Precedes(s.p.deadlines, b.h.log[k].timer, e.sequence)
  {
  }

  lemma TurnKeepsRound(b: Snapshot, c: Snapshot)
    requires Completes(b, c) && HomesOk(c.slots, c.next, c.p) && (b.stopping ==> b.p.home == map[])
    ensures c.dispatching == b.dispatching && c.roundDeadline == b.roundDeadline && c.p.roundLimit == b.p.roundLimit
    ensures b.next <= c.next && (c.stopping ==> c.p.home == map[]) && HandlesHold(b.slots, c.slots)
  {
    hide HistoryGrows, HandlesHold, HomesOk;
    if b.stopping { NoNewHomes(b, c); }
  }

  lemma FlaggedAreWithdrawn(slots: seq<Slot>, active: seq<nat>, head: int, next: nat, p: Places, h: History)
    requires SlotsOk(slots, head, next, p) && WithdrawalsOk(slots, active, p, h)
    ensures forall t :: t in p.home && slots[p.home[t]].cancelRequested ==> t in h.withdrawn
  {
  }

  /** The fate may be recorded next without breaking the round's order. */
  ghost predicate MayEnd(s: Snapshot, b: Snapshot, now: int, fate: Fate) {
    && (IsExpiry(fate) ==> fate.timer in Due(s, now))
    && (forall k :: |s.h.log| <= k < |b.h.log| && IsExpiry(b.h.log[k]) ==>
          Precedes(s.p.deadlines, b.h.log[k].timer, fate.timer))
    && (forall e :: e in b.p.entries && e.sequence < s.next ==> Precedes(s.p.deadlines, fate.timer, e.sequence))
  }

  lemma FateKeepsOrder(s: Snapshot, b: Snapshot, c: Snapshot, now: int, fate: Fate)
    requires ExpiredInOrder(s, b, now) && RestIsLater(s, b) && MayEnd(s, b, now, fate)
    requires c.h.log == b.h.log + [fate] && c.p.entries == b.p.entries
    ensures ExpiredInOrder(s, c, now) && RestIsLater(s, c)
  {
    hide Precedes, Due;
  }

  /** The popped front strictly precedes what remains. */
  lemma FrontPrecedesRest(s: Snapshot, b: Snapshot, timers: seq<Entry>)
    requires HeapOk(timers, b.p.entries) && timers != [] && Advances(s, b) && EntriesOk(s.slots, s.next, s.p)
    requires EntriesOk(b.slots, b.next, b.p) && timers[0].sequence < s.next
    ensures forall e :: e in b.p.entries - {timers[0]} && e.sequence < s.next ==>
              Precedes(s.p.deadlines, timers[0].sequence, e.sequence)
  {
    FrontPrecedesAll(timers, b.p.entries);
    forall e | e in b.p.entries && e.sequence < s.next
      ensures e.sequence in s.p.deadlines && s.p.deadlines[e.sequence] == e.deadline
    {
      assert e in s.p.entries;
      assert EntryOk(e, s.slots, s.next, s.p);
    }
  }

  lemma PopLive(slots: seq<Slot>, next: nat, p: Places, e: Entry)
    requires HomesOk(slots, next, p) && EntriesOk(slots, next, p) && e in p.entries && Live(slots, e)
    ensures EntriesOk(slots, next, p.(entries := p.entries - {e}, unqueued := p.unqueued + {e.sequence}))
    ensures Dead(p.entries - {e}, slots) == Dead(p.entries, slots)
    ensures slots[e.slot].timer == e.sequence && e.sequence in p.home && p.home[e.sequence] == e.slot
    ensures e.sequence in p.deadlines && EntryOf(e.sequence, slots, p) == e
  {
    var p' := p.(entries := p.entries - {e}, unqueued := p.unqueued + {e.sequence});
    assert EntryOk(e, slots, next, p);
    forall f | f in p'.entries ensures EntryOk(f, slots, next, p') {
      assert EntryOk(f, slots, next, p);
    }
    forall t | t in p'.home && t !in p'.unqueued && !slots[p'.home[t]].cancelRequested
      ensures EntryOf(t, slots, p') in p'.entries
    {
      assert EntryOf(t, slots, p) in p.entries && EntryOf(t, slots, p').sequence == t;
    }
  }

  lemma ExpiryAdvances(a: Snapshot, b: Snapshot, i: nat, head: int, fate: Fate)
    requires fate.timer !in a.h.ended && i < |a.slots|
    requires b == a.(h := Conclude(a.h, fate), slots := a.slots[i := Freed(a.slots[i], head)],
                     p := Vacate(a.p, i, Some(fate.timer)), topLive := b.topLive, covered := b.covered)
    ensures Advances(a, b) && b.h.log == a.h.log + [fate] && b.p.entries == a.p.entries && b.h.window == None
    ensures a.p.unqueued <= {fate.timer} ==> b.p.unqueued == {}
    ensures b.p.roundLimit == a.p.roundLimit
  {
  }

  ghost function StartEntries(entries: set<Entry>, limit: nat): set<Entry> {
    set e | e in entries && e.sequence < limit
  }

  lemma RoundStructure(slots: seq<Slot>, head: int, next: nat, active: seq<nat>, p: Places, h: History, limit: nat,
                       now: int)
    requires SlotsOk(slots, head, next, p) && FatesOk(h, next, p) && WithdrawalsOk(slots, active, p, h)
    requires EntriesOk(slots, next, p)
    ensures var p' := p.(roundLimit := next);
      && SlotsOk(slots, head, next, p') && FatesOk(h, next, p') && WithdrawalsOk(slots, active, p', h)
      && EntriesOk(slots, next, p') && RoundOk(true, now, next, p'.deadlines, next)
  {
    var p' := p.(roundLimit := next);
    forall e | e in p'.entries ensures EntryOk(e, slots, next, p') { assert EntryOk(e, slots, next, p); }
    forall t | t in p'.home && t !in p'.unqueued && !slots[p'.home[t]].cancelRequested
      ensures EntryOf(t, slots, p') in p'.entries
    {
      assert EntryOf(t, slots, p') == EntryOf(t, slots, p);
    }
  }

  lemma RoundBegins(s: Snapshot, now: int)
    ensures Advances(s, s) && ExpiredInOrder(s, s, now) && RestIsLater(s, s)
  {
  }

  /** From the round's start through the re-arm: its results stand. */
  lemma RoundIsOver(s0: Snapshot, s: Snapshot, b: Snapshot, c: Snapshot, d: Snapshot, now: int)
    requires s == s0.(dispatching := s.dispatching, roundDeadline := s.roundDeadline, p := s.p, topLive := s.topLive,
               covered := s.covered)
    requires s.p == s0.p.(roundLimit := s.p.roundLimit)
    requires Advances(s, b) && ExpiredInOrder(s, b, now)
    requires c.h == b.h && c.slots == b.slots && Completes(c.(covered := false), d.(covered := false))
    ensures HandlesHold(s0.slots, d.slots)
    ensures HistoryGrows(s0.h, d.h) && HistoryGrows(b.h, d.h) && ExpiredInOrder(s0, d, now)
    ensures AllDueServed(s, b, now) ==> AllDueServed(s0, d, now)
  {
    hide PlacesEvolve, HandlesHold, Precedes;
    HandlesHoldFurther(s.slots, b.slots, d.slots);
    assert Due(s0, now) == Due(s, now);
    forall k | |s0.h.log| <= k < |d.h.log| && IsExpiry(d.h.log[k]) ensures k < |b.h.log| && d.h.log[k] == b.h.log[k] {}
  }

  /** A slot whose occupant was taken never holds that generation again. */
  lemma GenerationIsGone(a: Snapshot, b: Snapshot, i: nat, generation: nat)
    requires HasOccupied(a.slots, i, generation) && HomesOk(a.slots, a.next, a.p) && HomesOk(b.slots, b.next, b.p)
    requires Completes(a, b) && a.slots[i].timer !in b.p.home
    ensures !HasOccupied(b.slots, i, generation)
  {
    hide HistoryGrows;
    if b.slots[i].occupied {
      var t := b.slots[i].timer;
      assert t in b.p.home && b.p.home[t] == i;
    }
  }

  lemma EndedIsHomeless(h: History, next: nat, p: Places, t: nat)
    requires FatesOk(h, next, p) && t in h.ended
    ensures t !in p.home
  {
  }

  lemma HandlerIsDone(stopping: bool, slots: seq<Slot>, head: int, next: nat, p: Places, posted: seq<Posted>, k: nat)
    requires NoticesOk(stopping, slots, posted) && k < |posted| && SlotsOk(slots, head, next, p)
    requires !HasOccupied(slots, posted[k].slot, posted[k].generation)
    ensures NoticesOk(stopping, slots, posted[..k] + posted[k + 1..])
  {
    var rest := posted[..k] + posted[k + 1..];
    forall x | x in posted && x != posted[k] ensures x in rest {
      var j :| 0 <= j < |posted| && posted[j] == x;
      if j < k { assert rest[j] == x; } else { assert rest[j - 1] == x; }
    }
  }

  lemma TurnKeepsCover(a: Snapshot, b: Snapshot)
    requires Completes(a, b)
    ensures a.topLive ==> b.topLive
    ensures a.covered ==> b.covered
    ensures HistoryGrows(a.h, b.h) && a.posted <= b.posted
  {
  }

  /** The round's results do not depend on the wait bookkeeping before it. */
  lemma RoundFromHandler(a: Snapshot, b: Snapshot, c: Snapshot, now: int)
    requires b == a.(topLive := b.topLive, covered := b.covered)
    ensures ExpiredInOrder(b, c, now) ==> ExpiredInOrder(a, c, now)
    ensures AllDueServed(b, c, now) ==> AllDueServed(a, c, now)
  {
    assert Due(a, now) == Due(b, now);
  }

  lemma NotStopping(stopping: bool, timers: seq<Entry>, unqueued: set<nat>, home: map<nat, nat>)
    requires StopOk(stopping, timers, unqueued, home) && timers != []
    ensures !stopping
  {
  }

  lemma AdvancesByTurn(a: Snapshot, b: Snapshot)
    requires Completes(a, b)
    ensures Advances(a, b)
  {
    hide HistoryGrows, PlacesEvolve, HandlesHold;
  }

  lemma TurnAddsOnlyNew(a: Snapshot, b: Snapshot, e: Entry)
    requires Completes(a, b) && e.sequence < a.next && e !in a.p.entries
    ensures e !in b.p.entries
  {
    hide HistoryGrows, SlotsEvolve;
  }

  lemma FewerStartEntries(b: Snapshot, c: Snapshot, front: Entry, limit: nat)
    requires Advances(b, c) && front in b.p.entries && front.sequence < limit <= b.next
    requires front !in c.p.entries
    ensures |StartEntries(c.p.entries, limit)| < |StartEntries(b.p.entries, limit)|
  {
    hide HistoryGrows;
    assert front in StartEntries(b.p.entries, limit);
    forall e | e in StartEntries(c.p.entries, limit) ensures e in StartEntries(b.p.entries, limit) {}
    SmallerSet(StartEntries(c.p.entries, limit), StartEntries(b.p.entries, limit));
  }

  /** The loop's exit: an entry of this round that is due cannot sit behind the front,
      for newer entries are due no earlier than the round's snapshot. */
  lemma GateHidesNothing(s: Snapshot, b: Snapshot, active: seq<nat>, timers: seq<Entry>, now: int)
    requires HomesOk(b.slots, b.next, b.p) && EntriesOk(b.slots, b.next, b.p) && HeapOk(timers, b.p.entries)
    requires FatesOk(b.h, b.next, b.p) && WithdrawalsOk(b.slots, active, b.p, b.h)
    requires RoundOk(true, now, b.next, b.p.deadlines, s.next) && Advances(s, b)
    requires if b.stopping then b.p.home == map[] else b.p.unqueued == {}
    requires timers == [] || timers[0].deadline > now || timers[0].sequence >= s.next
    requires HomesOk(s.slots, s.next, s.p)
    ensures AllDueServed(s, b, now)
  {
    hide EntriesOk, HistoryGrows, PlacesEvolve, HeapOk;
    forall t | t in Due(s, now)
      ensures t in b.h.withdrawn
              || (t in b.h.ended && b.h.ended[t] < |b.h.log| && b.h.log[b.h.ended[t]] == Delivered(t, Expired))
    {
      if t in b.p.home && !b.slots[b.p.home[t]].cancelRequested {
        FrontShowsDue(s, b, timers, now, t);
        assert false;
      }
    }
  }

  lemma FrontShowsDue(s: Snapshot, b: Snapshot, timers: seq<Entry>, now: int, t: nat)
    requires HomesOk(b.slots, b.next, b.p) && EntriesOk(b.slots, b.next, b.p) && HeapOk(timers, b.p.entries)
    requires RoundOk(true, now, b.next, b.p.deadlines, s.next) && Advances(s, b)
    requires t in b.p.home && t < s.next && !b.slots[b.p.home[t]].cancelRequested && t !in b.p.unqueued
    requires t in s.p.deadlines && s.p.deadlines[t] <= now
    ensures timers != [] && timers[0].deadline <= now && timers[0].sequence < s.next
  {
    hide HistoryGrows;
    var e := EntryOf(t, b.slots, b.p);
    assert e in b.p.entries;
    SetAndSequenceAgree(timers, b.p.entries);
    FrontPrecedesAll(timers, b.p.entries);
    assert EntryOk(timers[0], b.slots, b.next, b.p);
  }
}
