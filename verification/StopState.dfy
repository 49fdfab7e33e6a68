/** The stop state and its intrusive callback list (ruvia-core/src/stop_token.cpp). Each method
    is one critical section, proved to do to the real links and flags what the matching step of
    StopSteps does to its lists. */
module StopState {
  import opened IntrusiveLists
  import opened Sequences
  import opened StopSteps
  import Wrappers

  /** The flag of the node and the phase of the registration that holds it. */
  datatype Mark = Mark(linked: bool, phase: Phase)

  class StopNode {
    ghost const number: nat
    var mark: Mark
    var previous: StopNode?
    var next: StopNode?

    constructor (ghost n: nat, first: Phase)
      ensures number == n && mark == Mark(false, first) && previous == null && next == null
    {
      number, mark, previous, next := n, Mark(false, first), null, null;
    }

    predicate Linkable()
      reads this`mark
    {
      mark.phase == Registering || mark.phase == ResetPending
    }
  }

  ghost function Previous(all: seq<StopNode>): (r: seq<StopNode?>)
    reads all`previous
    ensures |r| == |all| && forall k :: 0 <= k < |all| ==> r[k] == all[k].previous
  {
    if all == [] then [] else Previous(all[..|all| - 1]) + [all[|all| - 1].previous]
  }

  ghost function Next(all: seq<StopNode>): (r: seq<StopNode?>)
    reads all`next
    ensures |r| == |all| && forall k :: 0 <= k < |all| ==> r[k] == all[k].next
  {
    if all == [] then [] else Next(all[..|all| - 1]) + [all[|all| - 1].next]
  }

  ghost function Marks(all: seq<StopNode>): (r: seq<Mark>)
    reads all`mark
    ensures |r| == |all| && forall k :: 0 <= k < |all| ==> r[k] == all[k].mark
  {
    if all == [] then [] else Marks(all[..|all| - 1]) + [all[|all| - 1].mark]
  }

  ghost predicate Numbered(all: seq<StopNode>) {
    forall i :: 0 <= i < |all| ==> all[i].number == i
  }

  /** The marks are those of the nodes, and a node that is still to be linked points nowhere. */
  ghost predicate NodesMatch(s: State, marks: seq<Mark>, previous: seq<StopNode?>) {
    && |s.nodes| == |marks| == |previous|
    && (forall i :: 0 <= i < |marks| ==> marks[i] == Mark(s.nodes[i].linked, s.nodes[i].phase))
    && (forall i :: 0 <= i < |marks| && (marks[i].phase == Registering || marks[i].phase == ResetPending) ==>
          previous[i] == null)
  }

  lemma SnapshotsGrow(all: seq<StopNode>, w: StopNode)
    ensures Previous(all + [w]) == Previous(all) + [w.previous] && Next(all + [w]) == Next(all) + [w.next]
    ensures Marks(all + [w]) == Marks(all) + [w.mark]
  {
  }

  class StopState {
    var requested: bool             // the requested flag
    var head: StopNode?
    var running: StopNode?
    var requester: Wrappers.Option<nat>
    var runAwaited: bool
    var runEpoch: nat
    ghost var all: seq<StopNode>
    ghost var s: State

    constructor ()
      ensures Valid() && all == [] && s == INITIAL
    {
      requested, head, running, requester, runAwaited, runEpoch := false, null, null, Wrappers.None, false, 0;
      all, s := [], INITIAL;
    }

    ghost predicate Mirrors(t: State)
      reads this`requested, this`running, this`requester, this`runAwaited, this`runEpoch, this`all
    {
      && requested == t.requested && runAwaited == t.awaited && runEpoch == t.epoch
      && (requester == if t.requester == Nobody then Wrappers.None else Wrappers.Some(t.requester.thread))
      && (running == if (t.requester.Invoking? || t.requester.InCallback?) && t.requester.node < |all|
                     then all[t.requester.node] else null)
    }

    ghost predicate Spelled(list: seq<nat>)
      reads this`head, this`all, all`previous, all`next
    {
      Spells(all, null, list, head, Member(all, null, list, |list| - 1), Previous(all), Next(all))
    }

    ghost predicate Valid()
      reads this, all
    {
      Numbered(all) && Inv(s) && Mirrors(s) && NodesMatch(s, Marks(all), Previous(all)) && Spelled(s.list)
    }

    ghost predicate Owns(w: StopNode)
      reads this
    {
      w.number < |all| && all[w.number] == w
    }

    // ----- one field at a time

    method SetPrevious(w: StopNode, p: StopNode?)
      requires Numbered(all) && Owns(w)
      modifies w`previous
      ensures Previous(all) == PutAt(old(Previous(all)), w.number, p) && Next(all) == old(Next(all))
      ensures Marks(all) == old(Marks(all))
    {
      w.previous := p;
    }

    method SetNext(w: StopNode, n: StopNode?)
      requires Numbered(all) && Owns(w)
      modifies w`next
      ensures Next(all) == PutAt(old(Next(all)), w.number, n) && Previous(all) == old(Previous(all))
      ensures Marks(all) == old(Marks(all))
    {
      w.next := n;
    }

    method SetMark(w: StopNode, mark: Mark)
      requires Numbered(all) && Owns(w)
      modifies w`mark
      ensures Previous(all) == old(Previous(all)) && Next(all) == old(Next(all))
      ensures Marks(all) == PutAt(old(Marks(all)), w.number, mark) && w.mark == mark
    {
      w.mark := mark;
    }

    method SetHead(w: StopNode?)
      modifies this`head
      ensures head == w && Previous(all) == old(Previous(all)) && Next(all) == old(Next(all))
      ensures Marks(all) == old(Marks(all))
    {
      head := w;
    }

    // ----- what happens to the list

    /** The list part of link. */
    method PushFront(w: StopNode, ghost list: seq<nat>)
      requires Numbered(all) && Owns(w) && Distinct(list) && w.number !in list && w.previous == null
      requires Spelled(list)
      modifies this`head, all`previous, all`next
      ensures Spelled([w.number] + list)
      ensures Marks(all) == old(Marks(all))
      ensures forall i :: 0 <= i < |all| && i !in list ==> Previous(all)[i] == old(Previous(all))[i]
    {
      hide Spells, Previous, Next, Marks;
      ghost var before, previous, next := head, Previous(all), Next(all);
      ghost var last := Member(all, null, list, |list| - 1);
      Ends(all, null, list, before, last, previous, next);
      SetNext(w, head);
      if head != null {
        SetPrevious(head, w);
      }
      SetHead(w);
      AfterPush(all, null, list, w.number, before, last, previous, next);
      assert Member(all, null, [w.number] + list, |list|) == if list == [] then w else last;
    }

    /** The list part of unlink: the node's own links stay as they are. */
    method CutOut(w: StopNode, ghost list: seq<nat>, ghost m: nat)
      requires Numbered(all) && Owns(w) && Distinct(list) && m < |list| && list[m] == w.number
      requires Spelled(list)
      modifies this`head, all`previous, all`next
      ensures Spelled(list[..m] + list[m + 1..])
      ensures Marks(all) == old(Marks(all))
      ensures forall i :: 0 <= i < |all| && i !in list ==> Previous(all)[i] == old(Previous(all))[i]
    {
      hide Spells, Previous, Next, Marks;
      ghost var before, previous, next := head, Previous(all), Next(all);
      ghost var last := Member(all, null, list, |list| - 1);
      Neighbours(all, null, list, m, before, last, previous, next);
      var left, right := w.previous, w.next;
      if left != null {
        SetNext(left, right);
      } else {
        SetHead(right);
      }
      if right != null {
        SetPrevious(right, left);
      }
      AfterCut(all, null, list, m, before, last, previous, next);
      MembersAround(all, null, list, m, |list| - 2);
      FirstOfSpelled(all, list, before, last, previous, next);
    }

    lemma FirstOfSpelled(all: seq<StopNode>, list: seq<nat>, first: StopNode?, last: StopNode?,
                         previous: seq<StopNode?>, next: seq<StopNode?>)
      requires Spells(all, null, list, first, last, previous, next)
      ensures first == Member(all, null, list, 0)
    {
    }

    lemma LastAfterPop(all: seq<StopNode>, list: seq<nat>)
      requires list != []
      ensures Member(all, null, list[1..], |list| - 2) ==
              if |list| == 1 then null else Member(all, null, list, |list| - 1)
    {
    }

    /** The list part of request_stop's loop. */
    method PopFront(ghost list: seq<nat>) returns (w: StopNode)
      requires Numbered(all) && Distinct(list) && list != [] && list[0] < |all| && all[list[0]] == head
      requires Spelled(list)
      modifies this`head, all`previous, all`next
      ensures w == all[list[0]]
      ensures Spelled(list[1..])
      ensures Marks(all) == old(Marks(all))
      ensures forall i :: 0 <= i < |all| && i !in list ==> Previous(all)[i] == old(Previous(all))[i]
    {
      hide Spells, Previous, Next, Marks;
      w := head;
      ghost var before, previous, next := head, Previous(all), Next(all);
      ghost var last := Member(all, null, list, |list| - 1);
      Neighbours(all, null, list, 0, before, last, previous, next);
      var second := w.next;
      SetHead(second);
      if second != null {
        SetPrevious(second, null);
      }
      SetNext(w, null);
      AfterPop(all, null, list, before, last, previous, next);
      LastAfterPop(all, list);
    }

    // ----- the critical sections

    /** The step is done: the links and the flags are those of the state after it. */
    ghost method Commit(after: State)
      requires Numbered(all) && Inv(after) && Mirrors(after) && NodesMatch(after, Marks(all), Previous(all))
      requires Spelled(after.list)
      modifies this`s
      ensures Valid() && s == after
    {
      hide Inv, Spells, Marks, Previous, Next, NodesMatch;
      s := after;
    }

    lemma NodeOf(w: StopNode)
      requires Valid() && Owns(w)
      ensures w.number < |s.nodes| == |all| && w.mark == Mark(s.nodes[w.number].linked, s.nodes[w.number].phase)
      ensures w.Linkable() ==> w.previous == null && !w.mark.linked
      ensures Distinct(s.list) && (w.mark.linked <==> w.number in s.list)
    {
    }

    /** A node of its own for a new registration. */
    method Allocate(phase: Phase) returns (w: StopNode)
      requires Numbered(all)
      modifies this`all
      ensures fresh(w) && all == old(all) + [w] && Numbered(all) && Owns(w) && w.number == |old(all)|
      ensures Previous(all) == old(Previous(all)) + [null] && Next(all) == old(Next(all)) + [null]
      ensures Marks(all) == old(Marks(all)) + [Mark(false, phase)]
    {
      hide Previous, Next, Marks;
      ghost var before, previous, next, marks := all, Previous(all), Next(all), Marks(all);
      w := new StopNode(|all|, phase);
      assert Previous(before) == previous && Next(before) == next && Marks(before) == marks;
      SnapshotsGrow(before, w);
      all := before + [w];
    }

    /** register_callback: a stop that was requested runs the callback at once, and its node is never linked. */
    method Emplace() returns (w: StopNode, runNow: bool)
      requires Valid()
      modifies this`all, this`s
      ensures Valid() && fresh(w) && all == old(all) + [w] && Owns(w)
      ensures s == Apply(old(s), StopSteps.Register) && runNow == requested
    {
      hide Spells, Previous, Next, Marks, Inv, NodesMatch, Apply;
      StepKeeps(s, StopSteps.Register);
      RegisterIs(s);
      RunningIsThere(s);
      runNow := requested;
      ghost var before, previous, next, marks := all, Previous(all), Next(all), Marks(all);
      w := Allocate(if requested then Idle else Registering);
      GrowthMatches(s, before, w, head, previous, next, marks);
      Commit(Apply(s, StopSteps.Register));
    }

    method LinkFront(w: StopNode, ghost list: seq<nat>)
      requires Numbered(all) && Owns(w) && Distinct(list) && w.number !in list && w.previous == null
      requires Spelled(list)
      modifies this`head, all`previous, all`next, w`mark
      ensures Spelled([w.number] + list) && w.mark == Mark(true, Registered)
      ensures Marks(all) == PutAt(old(Marks(all)), w.number, w.mark) && |Previous(all)| == |old(Previous(all))|
      ensures forall i :: 0 <= i < |all| && i !in list ==> Previous(all)[i] == old(Previous(all))[i]
    {
      hide Spells, Previous, Next, Marks, PutAt, Distinct;
      PushFront(w, list);
      SetMark(w, Mark(true, Registered));
    }

    /** link: refused once stop was requested, or when the registration was reset meanwhile. */
    method Link(w: StopNode) returns (linked: bool)
      requires Valid() && Owns(w) && Enabled(s, StopSteps.Link(w.number))
      modifies this`head, this`s, all`previous, all`next, w`mark
      ensures Valid() && s == Apply(old(s), StopSteps.Link(w.number))
      ensures linked == (!old(requested) && old(w.mark.phase) == Registering)
    {
      hide Spells, Previous, Next, Marks, Inv, NodesMatch, Busy, Distinct, PutAt, Apply;
      StepKeeps(s, StopSteps.Link(w.number));
      LinkIs(s, w.number);
      NodeOf(w);
      RunningIsThere(s);
      ghost var i, previous, marks := w.number, Previous(all), Marks(all);
      linked := !requested && w.mark.phase == Registering;
      if linked {
        LinkFront(w, s.list);
      }
      NodeChanges(s, i, At(Apply(s, StopSteps.Link(i)), i), marks, previous, Previous(all));
      PutOwn(marks, i);
      Commit(Apply(s, StopSteps.Link(i)));
    }

    /** The phase change of reset(); `claimed` tells the caller to unlink. */
    method Reset(w: StopNode, thread: nat) returns (claimed: bool)
      requires Valid() && Owns(w) && Enabled(s, StopSteps.Reset(w.number, thread))
      modifies this`s, w`mark
      ensures Valid() && s == Apply(old(s), StopSteps.Reset(w.number, thread))
      ensures claimed == (old(w.mark.phase) == Registered)
    {
      hide Spells, Previous, Next, Marks, Inv, NodesMatch, Enabled, Busy, Distinct, PutAt;
      StepKeeps(s, StopSteps.Reset(w.number, thread));
      NodeOf(w);
      RunningIsThere(s);
      ghost var i, previous, marks := w.number, Previous(all), Marks(all);
      claimed := w.mark.phase == Registered;
      if w.mark.phase == Registering {
        SetMark(w, w.mark.(phase := ResetPending));
      } else if claimed {
        SetMark(w, w.mark.(phase := Resetting(thread)));
      }
      NodeChanges(s, i, At(Apply(s, StopSteps.Reset(i, thread)), i), marks, previous, Previous(all));
      PutOwn(marks, i);
      PutOwn(s.nodes, i);
      Commit(Apply(s, StopSteps.Reset(i, thread)));
    }

    /** What is left of register_callback after a refused link; `runNow` unless the registration was reset. */
    method Withdraw(w: StopNode) returns (runNow: bool)
      requires Valid() && Owns(w) && Enabled(s, StopSteps.Withdraw(w.number))
      modifies this`s, w`mark
      ensures Valid() && s == Apply(old(s), StopSteps.Withdraw(w.number))
      ensures runNow == (At(s, w.number).invoked == 1) == (old(w.mark.phase) == Registering)
    {
      hide Spells, Previous, Next, Marks, Inv, NodesMatch, Busy, Distinct, PutAt;
      StepKeeps(s, StopSteps.Withdraw(w.number));
      NodeOf(w);
      RefusedIsOutside(s, w.number);
      ghost var i, previous, marks := w.number, Previous(all), Marks(all);
      runNow := w.mark.phase != ResetPending;
      SetMark(w, w.mark.(phase := Idle));
      NodeChanges(s, i, At(Apply(s, StopSteps.Withdraw(i)), i), marks, previous, Previous(all));
      Commit(Apply(s, StopSteps.Withdraw(i)));
    }

    /** unlink, when it takes the mutex: whether it must wait, and the epoch it then waits on. The phase is stored
        once the node is gone. */
    method Unlink(w: StopNode, thread: nat) returns (blocked: bool, epoch: nat)
      requires Valid() && Owns(w) && Enabled(s, StopSteps.Unlink(w.number)) && w.mark.phase == Resetting(thread)
      modifies this`head, this`s, this`runAwaited, all`previous, all`next, w`mark
      ensures Valid() && s == Apply(old(s), StopSteps.Unlink(w.number))
      ensures if blocked then At(s, w.number).waiting == Wrappers.Some(epoch) else At(s, w.number).gone
    {
      hide Spells, Previous, Next, Marks, Inv, NodesMatch, Busy, Distinct, PutAt, ApplyUnlink;
      NodeOf(w);
      if w.mark.linked {
        UnlinkedIsGone(s, w.number);
        UnlinkLinked(w);
        blocked, epoch := false, runEpoch;
      } else {
        blocked, epoch := UnlinkPopped(w, thread);
      }
    }

    lemma UnlinkedIsGone(s: State, i: nat)
      requires i < |s.nodes| && s.nodes[i].linked
      ensures At(ApplyUnlink(s, i), i).gone
    {
    }

    method UnlinkLinked(w: StopNode)
      requires Valid() && Owns(w) && Enabled(s, StopSteps.Unlink(w.number)) && w.mark.linked
      modifies this`head, this`s, all`previous, all`next, w`mark
      ensures Valid() && s == ApplyUnlink(old(s), w.number)
    {
      hide Spells, Previous, Next, Marks, Inv, NodesMatch, Busy, Distinct, PutAt, Apply;
      StepKeeps(s, StopSteps.Unlink(w.number));
      UnlinkIs(s, w.number);
      NodeOf(w);
      RunningIsNode(w);
      ghost var i, previous, marks := w.number, Previous(all), Marks(all);
      CutNode(w);
      SetMark(w, Mark(false, Idle));
      NodeChanges(s, i, At(Apply(s, StopSteps.Unlink(i)), i), marks, previous, Previous(all));
      Commit(Apply(s, StopSteps.Unlink(i)));
    }

    method UnlinkPopped(w: StopNode, thread: nat) returns (blocked: bool, epoch: nat)
      requires Valid() && Owns(w) && Enabled(s, StopSteps.Unlink(w.number)) && w.mark == Mark(false, Resetting(thread))
      modifies this`s, this`runAwaited, w`mark
      ensures Valid() && s == ApplyUnlink(old(s), w.number)
      ensures if blocked then At(s, w.number).waiting == Wrappers.Some(epoch) else At(s, w.number).gone
    {
      hide Spells, Previous, Next, Marks, Inv, NodesMatch, Busy, Distinct, PutAt, Apply;
      StepKeeps(s, StopSteps.Unlink(w.number));
      UnlinkIs(s, w.number);
      NodeOf(w);
      RunningIsNode(w);
      ghost var i, previous, marks := w.number, Previous(all), Marks(all);
      blocked, epoch := running == w && requester != Wrappers.Some(thread), runEpoch;
      if blocked {
        SetAwaited(true);
      } else {
        SetMark(w, Mark(false, Idle));
      }
      NodeChanges(s, i, At(Apply(s, StopSteps.Unlink(i)), i), marks, previous, Previous(all));
      PutOwn(marks, i);
      Commit(Apply(s, StopSteps.Unlink(i)));
    }

    method CutNode(w: StopNode)
      requires Numbered(all) && Spelled(s.list) && Owns(w) && Distinct(s.list) && w.number in s.list
      modifies this`head, all`previous, all`next
      ensures Spelled(Without(s.list, w.number)) && Marks(all) == old(Marks(all))
      ensures forall i :: 0 <= i < |all| && i !in s.list ==> Previous(all)[i] == old(Previous(all))[i]
    {
      ghost var m :| 0 <= m < |s.list| && s.list[m] == w.number;
      WithoutAt(s.list, m);
      CutOut(w, s.list, m);
    }

    method SetAwaited(awaited: bool)
      modifies this`runAwaited
      ensures runAwaited == awaited && Previous(all) == old(Previous(all)) && Next(all) == old(Next(all))
      ensures Marks(all) == old(Marks(all))
    {
      runAwaited := awaited;
    }

    lemma RunningIsNode(w: StopNode)
      requires Valid() && Owns(w)
      ensures running == w <==> Running(s, w.number)
      ensures w.mark.linked ==> running != w
      ensures s.nodes[w.number].waiting.Some? ==> !w.mark.linked && !w.Linkable()
      ensures s.requester.Invoking? || s.requester.InCallback? ==> s.requester.node < |s.nodes|
    {
    }

    /** unlink, when its wait ended: the callback may have returned. */
    method Wake(w: StopNode) returns (blocked: bool, epoch: nat)
      requires Valid() && Owns(w) && Enabled(s, StopSteps.Wake(w.number))
      modifies this`s, this`runAwaited, w`mark
      ensures Valid() && s == Apply(old(s), StopSteps.Wake(w.number))
      ensures if blocked then At(s, w.number).waiting == Wrappers.Some(epoch) else At(s, w.number).gone
    {
      hide Spells, Previous, Next, Marks, Inv, NodesMatch, Busy, Distinct, PutAt;
      StepKeeps(s, StopSteps.Wake(w.number));
      NodeOf(w);
      RunningIsNode(w);
      ghost var i, previous, marks := w.number, Previous(all), Marks(all);
      blocked, epoch := running == w, runEpoch;
      if blocked {
        SetAwaited(true);
      } else {
        SetMark(w, w.mark.(phase := Idle));
      }
      NodeChanges(s, i, At(Apply(s, StopSteps.Wake(i)), i), marks, previous, Previous(all));
      PutOwn(marks, i);
      Commit(Apply(s, StopSteps.Wake(i)));
    }

    lemma ListIsMarked()
      requires Valid()
      ensures ListOk(s) && |all| == |s.nodes| && (s.requested <==> requester.Some?)
      ensures !s.requested ==> running == null && !s.awaited
      ensures s.requester.InCallback? ==> requester == Wrappers.Some(s.requester.thread)
    {
    }

    method Begin(thread: nat)
      modifies this`requested, this`requester
      ensures requested && requester == Wrappers.Some(thread)
      ensures Previous(all) == old(Previous(all)) && Next(all) == old(Next(all)) && Marks(all) == old(Marks(all))
    {
      requested, requester := true, Wrappers.Some(thread);
    }

    /** The end of one turn of the loop in request_stop. */
    method EndRun()
      modifies this`running, this`runAwaited, this`runEpoch
      ensures running == null && !runAwaited && runEpoch == old(runEpoch) + (if old(runAwaited) then 1 else 0)
      ensures Previous(all) == old(Previous(all)) && Next(all) == old(Next(all)) && Marks(all) == old(Marks(all))
    {
      running := null;
      if runAwaited {
        runAwaited := false;
        runEpoch := runEpoch + 1;
      }
    }

    method SetRunning(w: StopNode?)
      modifies this`running
      ensures running == w
      ensures Previous(all) == old(Previous(all)) && Next(all) == old(Next(all)) && Marks(all) == old(Marks(all))
    {
      running := w;
    }

    method PopRunning(thread: nat, ghost t: State) returns (callback: StopNode)
      requires Numbered(all) && NodesMatch(t, Marks(all), Previous(all)) && Spelled(t.list) && ListOk(t)
      requires Inv(PopNext(t, thread)) && t.list != [] && t.list[0] < |all| && head == all[t.list[0]]
      modifies this`head, this`running, all`previous, all`next, all`mark
      ensures NodesMatch(PopNext(t, thread), Marks(all), Previous(all)) && Spelled(t.list[1..])
      ensures callback == running == all[t.list[0]]
    {
      hide Spells, Previous, Next, Marks, Inv, NodesMatch, PutAt, PopNext;
      ghost var previous, marks := Previous(all), Marks(all);
      callback := PopFront(t.list);
      SetMark(callback, callback.mark.(linked := false));
      SetRunning(callback);
      PoppedMatches(t, thread, marks, previous, Previous(all));
    }

    /** The head of the loop in request_stop, in the state `t` that the other fields show. */
    method RunNext(thread: nat, ghost t: State) returns (callback: StopNode?)
      requires Numbered(all) && NodesMatch(t, Marks(all), Previous(all)) && Spelled(t.list) && ListOk(t)
      requires Inv(PopNext(t, thread)) && running == null && requester == Wrappers.Some(thread)
      requires requested == t.requested && runAwaited == t.awaited && runEpoch == t.epoch
      modifies this`head, this`s, this`running, all`previous, all`next, all`mark
      ensures Valid() && s == PopNext(t, thread) && callback == running
    {
      hide Spells, Previous, Next, Marks, Inv, NodesMatch, Distinct, PutAt;
      callback := null;
      Ends(all, null, t.list, head, Member(all, null, t.list, |t.list| - 1), Previous(all), Next(all));
      if head != null {
        callback := PopRunning(thread, t);
      } else {
        SameNodesMatch(t, PopNext(t, thread), Marks(all), Previous(all));
      }
      Commit(PopNext(t, thread));
    }

    /** request_stop up to the first callback: none if the stop was requested before. */
    method Request(thread: nat) returns (callback: StopNode?)
      requires Valid() && Enabled(s, StopSteps.Request(thread))
      modifies this`head, this`s, this`requested, this`requester, this`running, all`previous, all`next, all`mark
      ensures Valid() && s == Apply(old(s), StopSteps.Request(thread))
      ensures callback == if old(requested) then null else running
    {
      hide Spells, Previous, Next, Marks, Inv, NodesMatch, Busy, Distinct, PutAt, PopNext;
      StepKeeps(s, StopSteps.Request(thread));
      ListIsMarked();
      callback := null;
      if requested {
        return;
      }
      ghost var t := s.(requested := true);
      SameNodesMatch(s, t, Marks(all), Previous(all));
      Begin(thread);
      callback := RunNext(thread, t);
    }

    /** The callback starts, with the mutex released. */
    ghost method Invoke()
      requires Valid() && s.requester.Invoking?
      modifies this`s
      ensures Valid() && s == Apply(old(s), StopSteps.Invoke)
    {
      hide Spells, Previous, Next, Marks, Inv, NodesMatch, Busy, Distinct, PutAt;
      StepKeeps(s, StopSteps.Invoke);
      RunningIsThere(s);
      ListIsMarked();
      var i := s.requester.node;
      NodeOf(all[i]);
      NodeChanges(s, i, At(Apply(s, StopSteps.Invoke), i), Marks(all), Previous(all), Previous(all));
      PutOwn(Marks(all), i);
      Commit(Apply(s, StopSteps.Invoke));
    }

    /** The callback returned: whoever waits for it is let go, and the next one is popped. */
    method Return() returns (callback: StopNode?)
      requires Valid() && Enabled(s, StopSteps.Return)
      modifies this`head, this`s, this`runAwaited, this`runEpoch, this`running, all`previous, all`next, all`mark
      ensures Valid() && s == Apply(old(s), StopSteps.Return) && callback == running
    {
      hide Spells, Previous, Next, Marks, Inv, NodesMatch, Busy, Distinct, PutAt, PopNext, Apply;
      StepKeeps(s, StopSteps.Return);
      ReturnIs(s);
      ListIsMarked();
      ghost var t := s.(awaited := false, epoch := if s.awaited then s.epoch + 1 else s.epoch);
      SameNodesMatch(s, t, Marks(all), Previous(all));
      EndRun();
      callback := RunNext(requester.value, t);
    }
  }

  lemma SameNodesMatch(s: State, t: State, marks: seq<Mark>, previous: seq<StopNode?>)
    requires NodesMatch(s, marks, previous) && t.nodes == s.nodes
    ensures NodesMatch(t, marks, previous)
  {
  }

  lemma PoppedMatches(t: State, thread: nat, marks: seq<Mark>, previous: seq<StopNode?>, previous': seq<StopNode?>)
    requires NodesMatch(t, marks, previous) && ListOk(t) && Inv(PopNext(t, thread)) && t.list != []
    requires |previous'| == |previous|
    requires forall k :: 0 <= k < |previous| && k !in t.list ==> previous'[k] == previous[k]
    ensures t.list[0] < |marks| && Distinct(t.list)
    ensures NodesMatch(PopNext(t, thread), PutAt(marks, t.list[0], marks[t.list[0]].(linked := false)), previous')
  {
  }

  lemma RefusedIsOutside(s: State, i: nat)
    requires Inv(s) && i < |s.nodes| && s.nodes[i].refused && s.nodes[i].phase != Idle
    ensures !s.nodes[i].linked && !s.nodes[i].inlined && s.nodes[i].invoked == 0
    ensures s.nodes[i].phase == Registering || s.nodes[i].phase == ResetPending
    ensures s.requester.Invoking? || s.requester.InCallback? ==> s.requester.node < |s.nodes|
  {
  }

  lemma RunningIsThere(s: State)
    requires Inv(s)
    ensures s.requester.Invoking? || s.requester.InCallback? ==> s.requester.node < |s.nodes|
  {
  }

  lemma RegisterIs(s: State)
    ensures Apply(s, StopSteps.Register) == ApplyRegister(s)
  {
  }

  lemma LinkIs(s: State, id: nat)
    ensures Apply(s, StopSteps.Link(id)) == ApplyLink(s, id)
  {
  }

  lemma UnlinkIs(s: State, id: nat)
    ensures Apply(s, StopSteps.Unlink(id)) == ApplyUnlink(s, id)
  {
  }

  lemma ReturnIs(s: State)
    ensures Apply(s, StopSteps.Return) == ApplyReturn(s)
  {
  }

  lemma GrowthMatches(s: State, all: seq<StopNode>, w: StopNode, head: StopNode?,
                      previous: seq<StopNode?>, next: seq<StopNode?>, marks: seq<Mark>)
    requires NodesMatch(s, marks, previous) && |all| == |marks|
    requires Spells(all, null, s.list, head, Member(all, null, s.list, |s.list| - 1), previous, next)
    ensures var phase := if s.requested then Idle else Registering;
            NodesMatch(ApplyRegister(s), marks + [Mark(false, phase)], previous + [null])
    ensures var after := all + [w];
            Spells(after, null, s.list, head, Member(after, null, s.list, |s.list| - 1), previous + [null],
                   next + [null])
  {
    AfterGrowth(all, null, w, s.list, head, Member(all, null, s.list, |s.list| - 1), previous, next);
  }

  /** One node changes, and the backward links of nodes outside the list do not. */
  lemma NodeChanges(s: State, i: nat, n: Node, marks: seq<Mark>, previous: seq<StopNode?>, previous': seq<StopNode?>)
    requires NodesMatch(s, marks, previous) && Inv(s) && i < |s.nodes| && |previous'| == |previous|
    requires forall k :: 0 <= k < |previous| && k !in s.list ==> previous'[k] == previous[k]
    requires n.phase == Registering || n.phase == ResetPending ==>
               s.nodes[i].phase == Registering || s.nodes[i].phase == ResetPending
    ensures forall s': State :: s'.nodes == s.nodes[i := n] ==>
              NodesMatch(s', PutAt(marks, i, Mark(n.linked, n.phase)), previous')
  {
  }
}
