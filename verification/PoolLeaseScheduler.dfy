/** The pool lease scheduler and its intrusive waiter queue
    (ruvia-core/src/pool_waiter_queue.h, ruvia-core/src/pool_lease_scheduler.cpp). Every
    method is proved to do to the real links, flags and slots what the matching step of
    PoolLeaseSteps does to its lists. */
module PoolLeaseScheduler {
  import Wrappers
  import opened PoolLeaseSteps
  import opened IntrusiveLists
  import opened Sequences

  /** pool_lease_acquire: its flags and its result, and its place in the waiter queue. The
      numbers name acquires in creation order. */
  class Waiter {
    ghost const number: nat
    var state: Acquire
    var previous: Waiter?
    var next: Waiter?

    constructor (ghost n: nat)
      ensures number == n && state == NEW_ACQUIRE && previous == null && next == null
    {
      number, state, previous, next := n, NEW_ACQUIRE, null, null;
    }
  }

  // ----- what the links mean

  ghost function Previous(all: seq<Waiter>): (r: seq<Waiter?>)
    reads all`previous
    ensures |r| == |all| && forall k :: 0 <= k < |all| ==> r[k] == all[k].previous
  {
    if all == [] then [] else Previous(all[..|all| - 1]) + [all[|all| - 1].previous]
  }

  ghost function Next(all: seq<Waiter>): (r: seq<Waiter?>)
    reads all`next
    ensures |r| == |all| && forall k :: 0 <= k < |all| ==> r[k] == all[k].next
  {
    if all == [] then [] else Next(all[..|all| - 1]) + [all[|all| - 1].next]
  }

  ghost predicate Numbered(all: seq<Waiter>) {
    forall i :: 0 <= i < |all| ==> all[i].number == i
  }

  ghost function States(all: seq<Waiter>): (r: seq<Acquire>)
    reads all`state
    ensures |r| == |all| && forall i :: 0 <= i < |all| ==> r[i] == all[i].state
  {
    if all == [] then [] else States(all[..|all| - 1]) + [all[|all| - 1].state]
  }

  ghost predicate QueueMatches(line: Line) {
    && Distinct(line.queue)
    && (forall i :: i in line.queue ==> i < |line.acquires|)
    && forall i :: 0 <= i < |line.acquires| ==> (line.acquires[i].queued <==> i in line.queue)
  }

  lemma EnqueueMatches(line: Line, i: nat)
    requires QueueMatches(line) && i < |line.acquires| && !line.acquires[i].queued
    ensures Distinct(line.queue) && i !in line.queue
            && QueueMatches(Put(line, i, At(line, i).(queued := true)).(queue := line.queue + [i]))
  {
  }

  ghost function Unlinked(line: Line, i: nat): Line {
    Put(line, i, At(line, i).(queued := false)).(queue := Without(line.queue, i))
  }

  lemma RemoveMatches(line: Line, i: nat)
    requires QueueMatches(line) && i < |line.acquires|
    ensures Distinct(line.queue) && (line.acquires[i].queued <==> i in line.queue)
    ensures QueueMatches(Unlinked(line, i))
  {
    WithoutIsDistinct(line.queue, i);
  }

  lemma SnapshotsGrow(all: seq<Waiter>, w: Waiter)
    ensures Previous(all + [w]) == Previous(all) + [w.previous] && Next(all + [w]) == Next(all) + [w.next]
    ensures States(all + [w]) == States(all) + [w.state]
  {
  }

  lemma GrowthMatches(line: Line)
    requires QueueMatches(line)
    ensures QueueMatches(line.(acquires := line.acquires + [NEW_ACQUIRE]))
  {
  }

  ghost function Taken(line: Line, i: nat): Line {
    var a := At(line, i);
    Put(line, i, a.(continuation := false)).(
    resumptions := if a.continuation then line.resumptions + [i] else line.resumptions)
  }

  ghost function Completed(line: Line, i: nat, outcome: Outcome): Line {
    Put(line, i, At(line, i).(result := Wrappers.Some(outcome)))
  }

  /** The order in which the queue touches an acquire that it settles does not show. */
  lemma FinishedInParts(line: Line, i: nat, outcome: Outcome)
    requires QueueMatches(line) && i < |line.acquires|
    ensures Taken(Disarm(Completed(Unlinked(line, i), i, outcome), i), i) == SettleAndDisarm(line, i, outcome)
  {
    WithoutIsDistinct(line.queue, i);
  }

  lemma SettledInParts(line: Line, i: nat, outcome: Outcome)
    requires i < |line.acquires|
    ensures var untimed := Put(Unlinked(line, i), i, At(Unlinked(line, i), i).(deadline := false));
            Taken(Completed(untimed, i, outcome), i) == Settle(line, i, outcome)
  {
  }

  lemma WriteMatches(line: Line, i: nat, a: Acquire)
    requires QueueMatches(line) && i < |line.acquires| && a.queued == line.acquires[i].queued
    ensures QueueMatches(Put(line, i, a))
  {
  }

  lemma HandedMatches(line: Line, handed: seq<nat>)
    requires QueueMatches(line)
    ensures QueueMatches(line.(handed := handed))
  {
  }

  lemma DisarmedInParts(line: Line, i: nat)
    requires i < |line.acquires|
    ensures Unlinked(Put(line, i, At(line, i).(deadline := false, stoppable := false)), i) == Disarm(line, i)
  {
  }

  lemma ArmedInParts(line: Line, i: nat, timeout: Timeout, stop: Stop)
    requires i < |line.acquires|
    ensures var a := At(line, i);
            var timed := if timeout == Elapsed(false) then Put(line, i, a.(result := Wrappers.Some(TimedOut)))
                         else if timeout.After? then Put(line, i, a.(deadline := true))
                         else line;
            Arm(line, i, timeout, stop) ==
              if At(timed, i).result.Some? || stop == NoStop then timed
              else if stop == Watched then Put(timed, i, At(timed, i).(stoppable := true))
              else Settle(timed, i, Cancelled)
  {
    assert Put(line, i, At(line, i)).acquires == line.acquires;
  }

  lemma JoinedInParts(line: Line, i: nat)
    requires i < |line.acquires|
    ensures var named := Put(line, i, At(line, i).(waiter := line.nextWaiter + 1)).(nextWaiter := line.nextWaiter + 1);
            Put(named, i, At(named, i).(queued := true)).(queue := named.queue + [i]) == PoolLeaseSteps.Enqueue(line, i)
  {
  }

  lemma ThrownInParts(line: Line, i: nat)
    requires i < |line.acquires| && !line.acquires[i].deadline && !line.acquires[i].stoppable
    ensures Unlinked(line, i) == Disarm(line, i)
  {
  }

  lemma ArmKeepsIds(line: Line, i: nat, timeout: Timeout, stop: Stop)
    ensures Arm(line, i, timeout, stop).nextWaiter == line.nextWaiter
    ensures At(Arm(line, i, timeout, stop), i).parked == At(line, i).parked
  {
  }

  class PoolWaiterQueue {
    var head: Waiter?
    var tail: Waiter?
    ghost var all: seq<Waiter>      // every acquire of the scheduler
    ghost var line: Line

    constructor ()
      ensures Valid() && all == [] && line == Initial(0).line
    {
      head, tail, all, line := null, null, [], Initial(0).line;
    }

    ghost predicate Valid()
      reads this, all
    {
      && Numbered(all) && line.acquires == States(all)
      && QueueMatches(line) && Spells(all, null, line.queue, head, tail, Previous(all), Next(all))
    }

    ghost predicate Owns(w: Waiter)
      reads this
    {
      w.number < |all| && all[w.number] == w
    }

    ghost method Record(after: Line)
      modifies this`line
      ensures line == after && Previous(all) == old(Previous(all)) && Next(all) == old(Next(all))
      ensures States(all) == old(States(all))
    {
      line := after;
    }

    method SetPrevious(w: Waiter, p: Waiter?)
      requires Numbered(all) && Owns(w)
      modifies w`previous
      ensures Previous(all) == PutAt(old(Previous(all)), w.number, p) && Next(all) == old(Next(all))
      ensures States(all) == old(States(all))
    {
      w.previous := p;
    }

    method SetNext(w: Waiter, n: Waiter?)
      requires Numbered(all) && Owns(w)
      modifies w`next
      ensures Next(all) == PutAt(old(Next(all)), w.number, n) && Previous(all) == old(Previous(all))
      ensures States(all) == old(States(all))
    {
      w.next := n;
    }

    method SetHead(w: Waiter?)
      modifies this`head
      ensures head == w && Previous(all) == old(Previous(all)) && Next(all) == old(Next(all))
      ensures States(all) == old(States(all))
    {
      head := w;
    }

    method SetTail(w: Waiter?)
      modifies this`tail
      ensures tail == w && Previous(all) == old(Previous(all)) && Next(all) == old(Next(all))
      ensures States(all) == old(States(all))
    {
      tail := w;
    }

    method SetState(w: Waiter, a: Acquire)
      requires Numbered(all) && Owns(w)
      modifies w`state
      ensures Previous(all) == old(Previous(all)) && Next(all) == old(Next(all))
      ensures States(all) == old(States(all))[w.number := a] && w.state == a
    {
      w.state := a;
    }

    /** The link updates of enqueue. */
    method LinkLast(w: Waiter, ghost queue: seq<nat>)
      requires Numbered(all) && Distinct(queue) && Owns(w) && w.number !in queue
      requires Spells(all, null, queue, head, tail, Previous(all), Next(all))
      modifies this`head, this`tail, all`previous, all`next
      ensures Spells(all, null, queue + [w.number], head, tail, Previous(all), Next(all))
      ensures States(all) == old(States(all))
    {
      hide Spells, Previous, Next, States;
      ghost var before, last, previous, next := head, tail, Previous(all), Next(all);
      Ends(all, null, queue, head, tail, previous, next);
      SetPrevious(w, tail);
      SetNext(w, null);
      if tail != null {
        SetNext(tail, w);
      } else {
        SetHead(w);
      }
      SetTail(w);
      AfterAppend(all, null, queue, w.number, before, last, previous, next);
    }

    method Enqueue(w: Waiter)
      requires Valid() && Owns(w) && !w.state.queued
      modifies this`head, this`tail, this`line, all`previous, all`next, w`state
      ensures Valid()
      ensures line == Put(old(line), w.number, At(old(line), w.number).(queued := true)).(
                      queue := old(line).queue + [w.number])
      ensures w.state == old(w.state).(queued := true)
    {
      hide Spells, Previous, Next, States, QueueMatches;
      EnqueueMatches(line, w.number);
      LinkLast(w, line.queue);
      SetState(w, w.state.(queued := true));
      Record(Put(line, w.number, At(line, w.number).(queued := true)).(queue := line.queue + [w.number]));
    }

    /** The link updates of remove. */
    method Unlink(w: Waiter, ghost queue: seq<nat>, ghost m: nat)
      requires Numbered(all) && Distinct(queue) && Owns(w) && m < |queue| && queue[m] == w.number
      requires Spells(all, null, queue, head, tail, Previous(all), Next(all))
      modifies this`head, this`tail, all`previous, all`next
      ensures Spells(all, null, queue[..m] + queue[m + 1..], head, tail, Previous(all), Next(all))
      ensures States(all) == old(States(all))
    {
      hide Spells, Previous, Next, States;
      ghost var before, last, previous, next := head, tail, Previous(all), Next(all);
      Neighbours(all, null, queue, m, head, tail, previous, next);
      if w.previous != null {
        SetNext(w.previous, w.next);
      } else {
        SetHead(w.next);
      }
      if w.next != null {
        SetPrevious(w.next, w.previous);
      } else {
        SetTail(w.previous);
      }
      SetPrevious(w, null);
      SetNext(w, null);
      AfterRemove(all, null, queue, m, before, last, previous, next, null, null);
    }

    /** remove: the queue loses this acquire, if it was there at all. */
    method Remove(w: Waiter)
      requires Valid() && Owns(w)
      modifies this`head, this`tail, this`line, all`previous, all`next, w`state
      ensures Valid()
      ensures line == Unlinked(old(line), w.number)
    {
      hide Spells, Previous, Next, States, QueueMatches;
      ghost var i, queue := w.number, line.queue;
      RemoveMatches(line, i);
      if !w.state.queued {
        assert Put(line, i, At(line, i).(queued := false)).acquires == line.acquires;
        return;
      }
      ghost var m :| 0 <= m < |queue| && queue[m] == i;
      WithoutAt(queue, m);
      Unlink(w, queue, m);
      SetState(w, w.state.(queued := false));
      Record(Unlinked(line, i));
    }

    lemma StateOf(w: Waiter)
      requires Valid() && Owns(w)
      ensures |all| == |line.acquires| && w.state == At(line, w.number)
    {
    }

    ghost method Resumed(k: nat)
      requires Valid() && k < |line.resumptions|
      modifies this`line
      ensures Valid()
      ensures line == old(line).(resumptions := old(line).resumptions[..k] + old(line).resumptions[k + 1..])
    {
      Record(line.(resumptions := line.resumptions[..k] + line.resumptions[k + 1..]));
    }

    ghost method NextId()
      requires Valid()
      modifies this`line
      ensures Valid() && line == old(line).(nextWaiter := old(line).nextWaiter + 1)
    {
      Record(line.(nextWaiter := line.nextWaiter + 1));
    }

    /** A new acquire of the scheduler; it joins no list. */
    method Register() returns (w: Waiter)
      requires Valid()
      modifies this`all, this`line
      ensures Valid() && fresh(w) && all == old(all) + [w] && Owns(w)
      ensures line == old(line).(acquires := old(line).acquires + [NEW_ACQUIRE])
    {
      hide Spells, QueueMatches, Previous, Next, States;
      ghost var before, previous, next, states := all, Previous(all), Next(all), States(all);
      w := new Waiter(|all|);
      assert Previous(before) == previous && Next(before) == next && States(before) == states;
      SnapshotsGrow(before, w);
      GrowthMatches(line);
      AfterGrowth(before, null, w, line.queue, head, tail, previous, next);
      all := before + [w];
      line := line.(acquires := line.acquires + [NEW_ACQUIRE]);
    }

    /** Any of the acquire's own fields but its place in the queue. */
    method Write(w: Waiter, a: Acquire)
      requires Valid() && Owns(w) && a.queued == w.state.queued
      modifies this`line, w`state
      ensures Valid() && line == Put(old(line), w.number, a) && w.state == a
    {
      hide Spells, Previous, Next, States, QueueMatches;
      WriteMatches(line, w.number, a);
      SetState(w, a);
      Record(Put(line, w.number, a));
    }

    /** complete: an acquire that has its result already never gets another. */
    method Complete(w: Waiter, outcome: Outcome)
      requires Valid() && Owns(w) && w.state.result.None?
      modifies this`line, w`state
      ensures Valid() && line == Completed(old(line), w.number, outcome)
    {
      Write(w, w.state.(result := Wrappers.Some(outcome)));
    }

    /** take_continuation */
    method TakeContinuation(w: Waiter) returns (resume: bool)
      requires Valid() && Owns(w)
      modifies this`line, w`state
      ensures Valid() && line == Taken(old(line), w.number) && resume == old(w.state.continuation)
    {
      hide Spells, Previous, Next, States;
      resume := w.state.continuation;
      Write(w, w.state.(continuation := false));
      if resume {
        Record(line.(resumptions := line.resumptions + [w.number]));
      }
    }

    /** cancel_registrations */
    method CancelRegistrations(w: Waiter)
      requires Valid() && Owns(w)
      modifies this`head, this`tail, this`line, all`previous, all`next, w`state
      ensures Valid() && line == Disarm(old(line), w.number)
    {
      hide Spells, Previous, Next, States, QueueMatches;
      DisarmedInParts(line, w.number);
      Write(w, w.state.(deadline := false, stoppable := false));
      Remove(w);
    }

    /** What commit_handoff, expire and close_all do to the acquire they answer. */
    method Finish(w: Waiter, outcome: Outcome) returns (resume: bool)
      requires Valid() && Owns(w) && w.state.result.None?
      modifies this`head, this`tail, this`line, all`previous, all`next, w`state
      ensures Valid() && line == SettleAndDisarm(old(line), w.number, outcome)
      ensures resume == old(w.state.continuation)
    {
      hide Spells, Previous, Next, States, QueueMatches;
      FinishedInParts(line, w.number, outcome);
      Remove(w);
      Complete(w, outcome);
      CancelRegistrations(w);
      resume := TakeContinuation(w);
    }

    /** commit_cancellation */
    method CommitCancellation(w: Waiter) returns (cancelled: bool, resume: bool)
      requires Valid() && Owns(w) && (w.state.queued ==> w.state.result.None?)
      modifies this`head, this`tail, this`line, all`previous, all`next, w`state
      ensures Valid() && line == Cancel(old(line), w.number)
      ensures cancelled == old(w.state.queued) && resume == (cancelled && old(w.state.continuation))
    {
      hide Spells, Previous, Next, States, QueueMatches;
      cancelled, resume := w.state.queued, false;
      if !cancelled {
        return;
      }
      SettledInParts(line, w.number, Cancelled);
      Remove(w);
      Write(w, w.state.(deadline := false));
      Complete(w, Cancelled);
      resume := TakeContinuation(w);
    }

    // ----- a suspending acquire

    /** The waiter joins the queue under a fresh id. */
    method Join(w: Waiter, id: nat)
      requires Valid() && Owns(w) && !w.state.queued && id == line.nextWaiter + 1
      modifies this`head, this`tail, this`line, all`previous, all`next, w`state
      ensures Valid() && line == PoolLeaseSteps.Enqueue(old(line), w.number)
      ensures w.state == old(w.state).(waiter := id, queued := true)
    {
      hide Spells, Previous, Next, States, QueueMatches, PoolWaiterQueue.Valid;
      StateOf(w);
      JoinedInParts(line, w.number);
      Write(w, w.state.(waiter := id));
      NextId();
      Enqueue(w);
    }

    /** Its deadline and its stop callback are armed, unless one of them answers it already. */
    method ArmWaiter(w: Waiter, timeout: Timeout, stop: Stop)
      requires Valid() && Owns(w) && w.state.queued && w.state.result.None? && timeout != After(true)
      modifies this`head, this`tail, this`line, all`previous, all`next, w`state
      ensures Valid() && line == Arm(old(line), w.number, timeout, stop)
    {
      hide Spells, Previous, Next, States, QueueMatches, PoolWaiterQueue.Valid;
      StateOf(w);
      ArmedInParts(line, w.number, timeout, stop);
      if timeout == Elapsed(false) {
        Complete(w, TimedOut);
      } else if timeout.After? {
        Write(w, w.state.(deadline := true));
      }
      StateOf(w);
      if w.state.result.None? && stop != NoStop {
        if stop == Watched {
          Write(w, w.state.(stoppable := true));
        } else {
          var cancelled, resume := CommitCancellation(w);
        }
      }
    }

    method SuspendWaiter(w: Waiter, id: nat, timeout: Timeout, stop: Stop) returns (suspended: bool, threw: bool)
      requires Valid() && Owns(w) && id == line.nextWaiter + 1 && w.state == NEW_ACQUIRE.(awaited := true)
      modifies this`head, this`tail, this`line, all`previous, all`next, w`state
      ensures Valid() && line == Suspend(old(line), w.number, timeout, stop) && line.nextWaiter == id
      ensures suspended == w.state.parked && threw == (timeout == After(true))
    {
      hide Spells, Previous, Next, States, QueueMatches, PoolWaiterQueue.Valid, Arm;
      suspended, threw := false, timeout == After(true);
      StateOf(w);
      Join(w, id);
      if threw {
        ThrownInParts(line, w.number);
        Remove(w);
        StateOf(w);
        Write(w, w.state.(threw := true));
        StateOf(w);
        return;
      }
      ArmKeepsIds(line, w.number, timeout, stop);
      ArmWaiter(w, timeout, stop);
      StateOf(w);
      if w.state.result.Some? {
        CancelRegistrations(w);
      } else {
        Write(w, w.state.(continuation := true, parked := true));
        suspended := true;
      }
      StateOf(w);
    }

    /** cancel, for a cancellation posted by another thread: the acquire may be gone by now. */
    method CancelById(id: nat) returns (cancelled: bool, resume: bool)
      requires Valid() && LinksOk(line)
      modifies this`head, this`tail, this`line, all`previous, all`next, all`state
      ensures Valid()
      ensures var found := PoolLeaseSteps.Find(old(line), old(line).queue, id);
              && line == (if found.Some? then Cancel(old(line), found.value) else old(line))
              && cancelled == found.Some?
    {
      hide Spells, Previous, Next, States, QueueMatches, LinksOk;
      cancelled, resume := false, false;
      var w := Find(id);
      if w != null {
        FoundIsWaiting(line, id);
        cancelled, resume := CommitCancellation(w);
      }
    }

    lemma FoundIsWaiting(line: Line, id: nat)
      requires LinksOk(line)
      ensures var found := PoolLeaseSteps.Find(line, line.queue, id);
              found.Some? ==> At(line, found.value).queued && At(line, found.value).result.None?
    {
      FindsTheOwner(line, line.queue, id);
    }

    method Find(id: nat) returns (w: Waiter?)
      requires Valid()
      ensures var found := PoolLeaseSteps.Find(line, line.queue, id);
              if w == null then found.None? else Owns(w) && found == Wrappers.Some(w.number)
    {
      ghost var k, queue := 0, line.queue;
      w := head;
      while w != null
        invariant 0 <= k <= |queue| && w == Member(all, null, queue, k) && (w == null <==> k == |queue|)
        invariant PoolLeaseSteps.Find(line, queue, id) == PoolLeaseSteps.Find(line, queue[k..], id)
        decreases |queue| - k
      {
        assert queue[k..][0] == queue[k] && queue[k..][1..] == queue[k + 1..];
        if w.state.waiter == id {
          return;
        }
        w := w.next;
        k := k + 1;
      }
    }

    /** expire: the timer's own call, so the acquire is still queued. */
    method Expire(w: Waiter) returns (expired: bool, resume: bool)
      requires Valid() && Owns(w) && (w.state.queued ==> w.state.result.None?)
      modifies this`head, this`tail, this`line, all`previous, all`next, w`state
      ensures Valid() && expired == old(w.state.queued)
      ensures line == if expired then SettleAndDisarm(old(line), w.number, TimedOut) else old(line)
    {
      expired, resume := w.state.queued, false;
      if expired {
        resume := Finish(w, TimedOut);
      }
    }

    /** commit_handoff: the freed slot goes to the head of the queue. */
    method CommitHandoff(slot: nat) returns (served: bool, resume: bool)
      requires Valid() && LinksOk(line)
      modifies this`head, this`tail, this`line, all`previous, all`next, all`state
      ensures Valid() && served == (old(line).queue != [])
      ensures var q := old(line).queue;
              line == if q == [] then old(line)
                      else SettleAndDisarm(old(line), q[0], Leased(slot)).(
                           handed := old(line).handed + [At(old(line), q[0]).waiter])
    {
      hide Spells, Previous, Next, States, QueueMatches, LinksOk;
      served, resume := head != null, false;
      HeadIsWaiting();
      if !served {
        return;
      }
      ghost var id := head.state.waiter;
      resume := Finish(head, Leased(slot));
      HandedMatches(line, line.handed + [id]);
      Record(line.(handed := line.handed + [id]));
    }

    lemma HeadIsWaiting()
      requires Valid() && LinksOk(line)
      ensures head == null <==> line.queue == []
      ensures head != null ==> Owns(head) && head.number == line.queue[0] && line.queue[0] in line.queue
      ensures head != null ==> head.state == At(line, head.number) && head.state.result.None?
    {
      if line.queue != [] {
        assert line.queue[0] in line.queue;
      }
    }

    /** close_all */
    method CloseEveryone()
      requires Valid() && LinksOk(line)
      modifies this`head, this`tail, this`line, all`previous, all`next, all`state
      ensures Valid() && line == CloseAll(old(line))
    {
      hide Spells, Previous, Next, States, QueueMatches, LinksOk, SettleAndDisarm;
      HeadIsWaiting();
      while head != null
        invariant Valid() && LinksOk(line) && all == old(all)
        invariant CloseAll(line) == CloseAll(old(line))
        invariant head == null <==> line.queue == []
        decreases |line.queue|
      {
        CloseHead();
      }
    }

    method CloseHead()
      requires Valid() && LinksOk(line) && line.queue != []
      modifies this`head, this`tail, this`line, all`previous, all`next, all`state
      ensures Valid() && LinksOk(line) && CloseAll(line) == CloseAll(old(line))
      ensures |line.queue| < |old(line).queue| && (head == null <==> line.queue == [])
    {
      hide Spells, Previous, Next, States, QueueMatches, LinksOk;
      HeadIsWaiting();
      SettleKeepsLinks(line, line.queue[0], Closed);
      var resume := Finish(head, Closed);
      HeadIsWaiting();
    }
  }

  /** The scheduler and everything its queue touches; the slot flags live in place. */
  class PoolLeaseScheduler {
    const queue: PoolWaiterQueue
    const busy: array<bool>
    var freeSlots: seq<nat>
    var closing: bool
    var reservedAcquires: nat
    var nextWaiterId: nat
    ghost var granted: multiset<nat>
    ghost var returned: multiset<nat>
    ghost var posted: seq<nat>      // waiter ids of cancellations on their way to the worker

    ghost function View(): State
      reads this, queue, busy
    {
      State(Slots(freeSlots, busy[..], granted, returned), queue.line, closing, reservedAcquires, posted)
    }

    ghost predicate Valid()
      reads this, queue, queue.all, busy
    {
      queue.Valid() && Inv(View()) && nextWaiterId == queue.line.nextWaiter
    }

    constructor (poolSize: nat)
      ensures Valid() && View() == Initial(poolSize) && fresh(queue) && fresh(busy) && queue.all == []
    {
      hide SlotsOk, LinksOk, OrderOk, Spells, Previous, Next, States, QueueMatches;
      queue := new PoolWaiterQueue();
      busy := new bool[poolSize](_ => false);
      freeSlots, closing, reservedAcquires, nextWaiterId := [], false, 0, 0;
      granted, returned, posted := multiset{}, multiset{}, [];
      new;
      var i := 0;
      while i < poolSize
        invariant 0 <= i <= poolSize && freeSlots == Indices(poolSize)[..i]
        modifies this`freeSlots
      {
        freeSlots := freeSlots + [i];
        i := i + 1;
      }
      assert busy[..] == seq(poolSize, k => false);
      assert View() == Initial(poolSize);
      InitialIsOk(poolSize);
    }

    /** acquire */
    method CreateAcquire() returns (w: Waiter)
      requires Valid()
      modifies this`reservedAcquires, queue`all, queue`line
      ensures Valid() && fresh(w) && queue.all == old(queue.all) + [w] && queue.Owns(w)
      ensures View() == Apply(old(View()), Create)
    {
      hide Spells, Previous, Next, States, QueueMatches, PoolWaiterQueue.Valid, SlotsOk, LinksOk, OrderOk;
      CreateKeeps(View());
      w := queue.Register();
      reservedAcquires := reservedAcquires + 1;
    }

    /** try_acquire */
    method TryTake(stopRequested: bool) returns (result: Wrappers.Option<Outcome>)
      requires Valid()
      modifies this`freeSlots, this`granted, busy
      ensures queue.Valid() && result == TryAcquire(old(View()), stopRequested)
      ensures View() == old(View()).(slots := if result.Some? && result.value.Leased?
                                              then TakeSlot(old(View()).slots, result.value.slot)
                                              else old(View()).slots)
    {
      hide Spells, Previous, Next, States, QueueMatches, SlotsOk, LinksOk, OrderOk;
      if closing {
        return Wrappers.Some(Closed);
      }
      if stopRequested {
        return Wrappers.Some(Cancelled);
      }
      if freeSlots == [] {
        return Wrappers.None;
      }
      TakeSlotKeeps(View().slots);
      var slot := freeSlots[|freeSlots| - 1];
      freeSlots := freeSlots[..|freeSlots| - 1];
      busy[slot] := true;
      granted := granted + multiset{slot};
      result := Wrappers.Some(Leased(slot));
    }

    /** await_ready, of an acquire that was not awaited before. */
    method AwaitReady(w: Waiter, stopRequested: bool) returns (ready: bool)
      requires Valid() && queue.Owns(w) && w.state == NEW_ACQUIRE
      modifies this`freeSlots, this`granted, busy, queue`line, w`state
      ensures queue.Valid() && View() == ApplyReady(old(View()), w.number, stopRequested)
      ensures ready == w.state.result.Some? && w.state == At(queue.line, w.number)
    {
      hide Spells, Previous, Next, States, QueueMatches, SlotsOk, LinksOk, OrderOk;
      queue.StateOf(w);
      var result := TryTake(stopRequested);
      queue.Write(w, w.state.(awaited := true, result := result));
      queue.StateOf(w);
      ready := result.Some?;
    }

    /** await_suspend: whether the coroutine stays suspended, or the exception of a timer that could not be armed. */
    method AwaitSuspend(w: Waiter, timeout: Timeout, stop: Stop) returns (suspended: bool, threw: bool)
      requires queue.Valid() && queue.Owns(w) && nextWaiterId == queue.line.nextWaiter
      requires w.state == NEW_ACQUIRE.(awaited := true)
      modifies this`nextWaiterId, queue`head, queue`tail, queue`line, queue.all`previous, queue.all`next, w`state
      ensures queue.Valid() && nextWaiterId == queue.line.nextWaiter
      ensures queue.line == Suspend(old(queue.line), w.number, timeout, stop)
      ensures suspended == w.state.parked && threw == (timeout == After(true))
    {
      hide Spells, Previous, Next, States, QueueMatches, PoolWaiterQueue.Valid;
      nextWaiterId := nextWaiterId + 1;
      suspended, threw := queue.SuspendWaiter(w, nextWaiterId, timeout, stop);
    }

    /** A co_await of an acquire, from await_ready to the return of await_suspend; a second one is refused. */
    method Await(w: Waiter, stopRequested: bool, timeout: Timeout, stop: Stop)
      returns (refused: bool, suspended: bool, threw: bool)
      requires Valid() && queue.Owns(w) && w.state.alive
      modifies this`freeSlots, this`granted, this`nextWaiterId, busy
      modifies queue`head, queue`tail, queue`line, queue.all`previous, queue.all`next, w`state
      ensures Valid() && refused == old(w.state.awaited)
      ensures View() == if refused then old(View())
                        else Apply(old(View()), Step.Await(w.number, stopRequested, timeout, stop))
    {
      hide Spells, Previous, Next, States, QueueMatches, PoolWaiterQueue.Valid;
      hide SlotsOk, OrderOk, Suspend, Apply;
      AwaitIs(View(), w.number, stopRequested, timeout, stop);
      refused, suspended, threw := w.state.awaited, false, false;
      if refused {
        return;
      }
      queue.StateOf(w);
      assert w.state == NEW_ACQUIRE;
      AwaitKeeps(View(), w.number, stopRequested, timeout, stop);
      SuspendCounts(queue.line, w.number, timeout, stop);
      var ready := AwaitReady(w, stopRequested);
      if !ready {
        suspended, threw := AwaitSuspend(w, timeout, stop);
      }
    }

    /** release: the slot goes to the oldest waiter, or back to the free list. */
    method Release(slot: nat)
      requires Valid() && slot < busy.Length && busy[slot]
      modifies this`freeSlots, this`granted, this`returned, busy
      modifies queue`head, queue`tail, queue`line, queue.all`previous, queue.all`next, queue.all`state
      ensures Valid() && View() == Apply(old(View()), Step.Release(slot))
    {
      hide Spells, Previous, Next, States, QueueMatches, PoolWaiterQueue.Valid;
      hide SlotsOk, LinksOk, OrderOk, SettleAndDisarm;
      ReleaseKeeps(View(), slot);
      SettlingCounts(queue.line, slot);
      returned := returned + multiset{slot};
      if !closing {
        var served, resume := queue.CommitHandoff(slot);
        if served {
          granted := granted + multiset{slot};
          return;
        }
      }
      busy[slot] := false;
      freeSlots := freeSlots + [slot];
    }

    /** close */
    method CloseScheduler() returns (first: bool)
      requires Valid()
      modifies this`closing, queue`head, queue`tail, queue`line, queue.all`previous, queue.all`next, queue.all`state
      ensures Valid() && View() == Apply(old(View()), Step.Close) && first == !old(closing)
    {
      hide Spells, Previous, Next, States, QueueMatches, PoolWaiterQueue.Valid;
      hide SlotsOk, LinksOk, OrderOk, CloseAll;
      StepKeeps(View(), Step.Close);
      ClosingCounts(queue.line);
      first := !closing;
      if first {
        closing := true;
        queue.CloseEveryone();
      }
    }

    /** The deadline timer of an acquire expired. */
    method TimerExpired(w: Waiter)
      requires Valid() && queue.Owns(w) && w.state.deadline
      modifies queue`head, queue`tail, queue`line, queue.all`previous, queue.all`next, w`state
      ensures Valid() && View() == Apply(old(View()), Step.Expire(w.number))
    {
      hide Spells, Previous, Next, States, QueueMatches, PoolWaiterQueue.Valid;
      hide SlotsOk, OrderOk, SettleAndDisarm;
      queue.StateOf(w);
      StepKeeps(View(), Step.Expire(w.number));
      SettledCounts(queue.line, w.number, TimedOut);
      var expired, resume := queue.Expire(w);
    }

    /** request_cancellation, on the worker or posted to it by waiter id. */
    method RequestCancellation(w: Waiter, onWorker: bool)
      requires Valid() && queue.Owns(w) && w.state.stoppable
      modifies this`posted, queue`head, queue`tail, queue`line, queue.all`previous, queue.all`next, w`state
      ensures Valid()
      ensures View() == Apply(old(View()), if onWorker then Step.StopHere(w.number) else Step.StopElsewhere(w.number))
    {
      hide Spells, Previous, Next, States, QueueMatches, PoolWaiterQueue.Valid;
      hide SlotsOk, OrderOk, Settle;
      queue.StateOf(w);
      StepKeeps(View(), if onWorker then Step.StopHere(w.number) else Step.StopElsewhere(w.number));
      SettledCounts(Put(queue.line, w.number, w.state.(stoppable := false)), w.number, Cancelled);
      queue.Write(w, w.state.(stoppable := false));
      if onWorker {
        var cancelled, resume := queue.CommitCancellation(w);
      } else {
        posted := posted + [w.state.waiter];
      }
    }

    /** The oldest posted cancellation runs. */
    method RunPostedCancellation(id: nat)
      requires Valid() && posted != [] && id == posted[0]
      modifies this`posted, queue`head, queue`tail, queue`line, queue.all`previous, queue.all`next, queue.all`state
      ensures Valid() && View() == Apply(old(View()), Step.RunPosted)
    {
      hide Spells, Previous, Next, States, QueueMatches, PoolWaiterQueue.Valid;
      hide SlotsOk, LinksOk, OrderOk, Settle;
      StepKeeps(View(), Step.RunPosted);
      PostedCounts(queue.line, id);
      posted := posted[1..];
      var cancelled, resume := queue.CancelById(id);
    }

    /** await_resume: the coroutine always finds a result. */
    method AwaitResume(w: Waiter, ghost k: nat) returns (outcome: Outcome)
      requires Valid() && queue.Owns(w) && k < |queue.line.resumptions| && queue.line.resumptions[k] == w.number
      modifies queue`head, queue`tail, queue`line, queue.all`previous, queue.all`next, w`state
      ensures Valid() && View() == Apply(old(View()), Step.Resume(k))
      ensures old(w.state.result) == Wrappers.Some(outcome)
    {
      hide Spells, Previous, Next, States, QueueMatches, PoolWaiterQueue.Valid;
      hide SlotsOk, OrderOk;
      queue.StateOf(w);
      assert w.number in queue.line.resumptions;
      StepKeeps(View(), Step.Resume(k));
      outcome := w.state.result.value;
      queue.CancelRegistrations(w);
      queue.StateOf(w);
      queue.Write(w, w.state.(parked := false));
      queue.Resumed(k);
    }

    /** The destructor of an acquire that no step is about to resume. */
    method DestroyAcquire(w: Waiter)
      requires Valid() && queue.Owns(w) && w.state.alive && w.number !in queue.line.resumptions
      modifies this`reservedAcquires
      modifies queue`head, queue`tail, queue`line, queue.all`previous, queue.all`next, w`state
      ensures Valid() && View() == Apply(old(View()), Step.Destroy(w.number))
    {
      hide Spells, Previous, Next, States, QueueMatches, PoolWaiterQueue.Valid;
      hide SlotsOk, LinksOk, OrderOk, ApplyDestroy, Disarm;
      queue.StateOf(w);
      StepKeeps(View(), Step.Destroy(w.number));
      DestroyKeeps(queue.line, w.number);
      DestroyedInParts(queue.line, w.number);
      queue.CancelRegistrations(w);
      queue.StateOf(w);
      queue.Write(w, w.state.(alive := false, continuation := false, parked := false));
      reservedAcquires := reservedAcquires - 1;
    }
  }

  lemma DestroyedInParts(line: Line, i: nat)
    requires i < |line.acquires|
    ensures var gone := Disarm(line, i);
            && !At(gone, i).queued && gone.nextWaiter == line.nextWaiter
            && ApplyDestroy(line, i) ==
               Put(gone, i, At(gone, i).(alive := false, continuation := false, parked := false))
  {
  }

  lemma SettledCounts(line: Line, i: nat, outcome: Outcome)
    ensures Settle(line, i, outcome).nextWaiter == SettleAndDisarm(line, i, outcome).nextWaiter == line.nextWaiter
  {
  }

  lemma PostedCounts(line: Line, id: nat)
    ensures var found := PoolLeaseSteps.Find(line, line.queue, id);
            found.Some? ==> Cancel(line, found.value).nextWaiter == line.nextWaiter
  {
  }

  lemma AwaitIs(s: State, i: nat, stopRequested: bool, timeout: Timeout, stop: Stop)
    ensures Apply(s, Step.Await(i, stopRequested, timeout, stop)) == ApplyAwait(s, i, stopRequested, timeout, stop)
  {
  }

  lemma SuspendCounts(line: Line, i: nat, timeout: Timeout, stop: Stop)
    requires i < |line.acquires| && line.acquires[i] == NEW_ACQUIRE
    ensures Awaited(line, i) == Put(line, i, NEW_ACQUIRE.(awaited := true, result := Wrappers.None))
  {
  }

  lemma SettlingCounts(line: Line, slot: nat)
    ensures line.queue != [] ==> SettleAndDisarm(line, line.queue[0], Leased(slot)).nextWaiter == line.nextWaiter
  {
  }

  lemma {:induction false} ClosingCounts(line: Line)
    ensures CloseAll(line).nextWaiter == line.nextWaiter
    decreases |line.queue|
  {
    if line.queue != [] {
      var rest := SettleAndDisarm(line, line.queue[0], Closed);
      if |rest.queue| < |line.queue| {
        ClosingCounts(rest);
      }
    }
  }
}
