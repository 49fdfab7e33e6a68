/** The blocking pool's nodes, ring and counters (ruvia-core/src/blocking_pool.cpp). Each method
    is one critical section, or one of stop()'s pops outside the lock, proved to do to the real
    fields what the matching step of BlockingPoolSteps does. */
module BlockingPool {
  import opened BlockingPoolSteps
  import opened LocalRingQueue
  import Wrappers

  class TaskNode {
    var task: Wrappers.Option<nat>     // the submission whose callable it holds
    var next: TaskNode?

    constructor (n: TaskNode?)
      ensures next == n && task.None?
    {
      task, next := Wrappers.None, n;
    }
  }

  ghost function Nth(free: seq<TaskNode>, k: nat): TaskNode? {
    if k < |free| then free[k] else null
  }

  /** The free list, from its head. */
  ghost predicate Chain(free: seq<TaskNode>, head: TaskNode?)
    reads free`next
  {
    head == Nth(free, 0) && forall k :: 0 <= k < |free| ==> free[k].next == Nth(free, k + 1)
  }

  lemma ChainPops(free: seq<TaskNode>, head: TaskNode?)
    requires Chain(free, head) && free != []
    ensures head == free[0] && Chain(free[1..], free[0].next)
  {
    forall k | 0 <= k < |free| - 1 ensures free[1..][k].next == Nth(free[1..], k + 1) {
      assert free[1..][k] == free[k + 1];
    }
  }

  lemma ChainPushes(free: seq<TaskNode>, head: TaskNode?, node: TaskNode)
    requires Chain(free, head) && node.next == head
    ensures Chain([node] + free, node)
  {
    var after := [node] + free;
    forall k | 0 <= k < |after| ensures after[k].next == Nth(after, k + 1) {
      if k > 0 {
        assert after[k] == free[k - 1];
      }
    }
  }

  lemma ApartMoves(all: set<TaskNode>, free: seq<TaskNode>, ring: seq<TaskNode?>, held: set<TaskNode>, node: TaskNode)
    requires Apart(all, free, ring, held) && node in all
    ensures free != [] && node == free[0] ==> Apart(all, free[1..], ring, held + {node})
    ensures node in held ==> Apart(all, [node] + free, ring, held - {node})
    ensures node in held ==> Apart(all, free, ring + [node], held - {node})
    ensures ring != [] && node == ring[0] ==> Apart(all, free, ring[1..], held + {node})
  {
  }

  /** A node is free, in the ring, or held by exactly one caller. */
  ghost predicate Apart(all: set<TaskNode>, free: seq<TaskNode>, ring: seq<TaskNode?>, held: set<TaskNode>) {
    && (forall j, k :: 0 <= j < k < |free| ==> free[j] != free[k])
    && (forall j, k :: 0 <= j < k < |ring| ==> ring[j] != ring[k])
    && (forall k :: 0 <= k < |ring| ==> ring[k] in all && ring[k] !in held && ring[k] !in free)
    && (forall n :: n in free ==> n in all && n !in held)
    && held <= all
  }

  lemma ApartIsWithin(all: set<TaskNode>, free: seq<TaskNode>, ring: seq<TaskNode?>, held: set<TaskNode>)
    requires Apart(all, free, ring, held)
    ensures held <= all && (forall n :: n in free ==> n in all && n !in held)
    ensures forall k :: 0 <= k < |ring| ==> ring[k] in all && ring[k] !in held
  {
  }

  /** The ring holds the nodes of the queued tasks, in order. */
  ghost predicate Tasks(all: set<TaskNode>, ring: seq<TaskNode?>, ids: seq<nat>)
    reads all`task
  {
    |ring| == |ids| && forall k :: 0 <= k < |ring| ==> ring[k] in all && ring[k].task == Wrappers.Some(ids[k])
  }

  datatype SubmitStatus = Admitted | QueueFull | PoolStopped

  datatype Work = Exit | Sleep | Run

  class Pool {
    const ring: RingQueue<TaskNode?>
    var freeHead: TaskNode?
    var queued: nat
    var reserved: nat
    var running: nat
    var completed: nat
    var rejected: nat
    var discarded: nat
    var stopping: bool
    var drainThread: Wrappers.Option<nat>
    var joining: bool
    var joined: bool
    ghost var all: set<TaskNode>
    ghost var free: seq<TaskNode>
    ghost var held: set<TaskNode>
    ghost var s: State

    /** Every node starts on the free list. */
    constructor (capacity: nat, threads: nat)
      requires capacity > 0
      ensures Valid() && s == Initial(capacity, threads) && fresh(ring) && fresh(ring.storage) && fresh(all)
    {
      ring := new RingQueue<TaskNode?>(capacity);
      freeHead, queued, reserved, running, completed, rejected, discarded := null, 0, 0, 0, 0, 0, 0;
      stopping, drainThread, joining, joined := false, Wrappers.None, false, false;
      all, free, held, s := {}, [], {}, Initial(capacity, threads);
      new;
      var i := 0;
      while i < capacity + threads
        invariant 0 <= i <= capacity + threads && |free| == i && fresh(all)
        invariant Chain(free, freeHead) && Apart(all, free, [], {})
        invariant s == Initial(capacity, threads) && ring.Valid() && ring.Contents() == [] && held == {} && Mirrors(s)
        modifies this`all, this`free, this`freeHead
      {
        AddNode();
        i := i + 1;
      }
      InitialIsOk(capacity, threads);
    }

    /** One node more on the free list of an otherwise empty pool. */
    method AddNode()
      requires Apart(all, free, [], {}) && Chain(free, freeHead)
      modifies this`all, this`free, this`freeHead
      ensures Apart(all, free, [], {}) && Chain(free, freeHead) && |free| == |old(free)| + 1
      ensures fresh(all - old(all))
    {
      var node := new TaskNode(freeHead);
      ChainPushes(free, freeHead, node);
      free, all := [node] + free, all + {node};
      freeHead := node;
    }

    ghost predicate Mirrors(t: State)
      reads this`queued, this`reserved, this`running, this`completed, this`rejected, this`discarded
      reads this`stopping, this`drainThread, this`joining, this`joined
    {
      && queued == t.store.queued && reserved == t.store.reserved && running == |t.store.running|
      && completed == |t.ledger.completed| && rejected == |t.ledger.rejected| && discarded == |t.ledger.discarded|
      && stopping == t.gate.stopping && drainThread == t.gate.drainer
      && joining == t.gate.joining && joined == t.gate.joined
    }

    /** Who holds the nodes; the counters and the state of BlockingPoolSteps apart. */
    ghost predicate Stored(ids: seq<nat>, count: nat)
      reads this`freeHead, this`all, this`free, this`held, ring, ring.storage, all
    {
      && ring.Valid() && |free| == count
      && Apart(all, free, ring.Contents(), held) && Chain(free, freeHead) && Tasks(all, ring.Contents(), ids)
    }

    ghost predicate Valid()
      reads this, ring, ring.storage, all
    {
      Stored(s.store.ring, s.store.free) && ring.storage.Length == s.store.capacity && Inv(s) && Mirrors(s)
    }

    // ----- the free list and the ring

    method TakeFree(ghost ids: seq<nat>) returns (node: TaskNode)
      requires Stored(ids, |free|) && free != []
      modifies this`freeHead, this`free, this`held
      ensures Stored(ids, |old(free)| - 1) && node in held
    {
      hide Chain, Apart, Tasks;
      ChainPops(free, freeHead);
      ApartIsWithin(all, free, ring.Contents(), held);
      ApartMoves(all, free, ring.Contents(), held, free[0]);
      node := freeHead;
      freeHead := node.next;
      free, held := free[1..], held + {node};
    }

    method PutFree(node: TaskNode, ghost ids: seq<nat>)
      requires Stored(ids, |free|) && node in held
      modifies this`freeHead, this`free, this`held, node`next
      ensures Stored(ids, |old(free)| + 1) && node !in held
    {
      hide Apart, Tasks;
      ApartIsWithin(all, free, ring.Contents(), held);
      ApartMoves(all, free, ring.Contents(), held, node);
      node.next := freeHead;
      ChainPushes(free, freeHead, node);
      freeHead := node;
      free, held := [node] + free, held - {node};
    }

    method PushTask(node: TaskNode, id: nat, ghost ids: seq<nat>)
      requires Stored(ids, |free|) && node in held && |ids| < ring.storage.Length
      modifies this`held, node`task, ring`size, ring.storage
      ensures Stored(ids + [id], |free|)
    {
      hide Apart, Chain;
      ApartIsWithin(all, free, ring.Contents(), held);
      ApartMoves(all, free, ring.Contents(), held, node);
      node.task := Wrappers.Some(id);
      held := held - {node};
      var pushed := ring.TryPush(node);
    }

    method PopTask(ghost ids: seq<nat>) returns (node: TaskNode)
      requires Stored(ids, |free|) && ids != []
      modifies this`held, ring`head, ring`size
      ensures Stored(ids[1..], |free|) && node in held && node.task == Wrappers.Some(ids[0])
    {
      hide Apart, Chain;
      ghost var before := ring.Contents();
      ApartIsWithin(all, free, before, held);
      ApartMoves(all, free, before, held, before[0]);
      var popped, top := ring.TryPop(null);
      assert before[0] == top && ring.Contents() == before[1..];
      node := top;
      held := held + {node};
    }

    /** The step is done: the fields are those of the state after it. */
    ghost method Commit(after: State)
      requires Stored(after.store.ring, after.store.free) && ring.storage.Length == after.store.capacity
      requires Inv(after) && Mirrors(after)
      modifies this`s
      ensures Valid() && s == after
    {
      hide Inv, Stored;
      s := after;
    }

    // ----- submit()

    /** The first section: a node for an admitted submission. */
    method Reserve() returns (status: SubmitStatus, node: TaskNode?)
      requires Valid()
      modifies this`freeHead, this`free, this`held, this`s, this`reserved, this`rejected, this`discarded
      ensures Valid() && s == Apply(old(s), Submit)
      ensures status == if old(stopping) then PoolStopped
                        else if old(queued + reserved) >= ring.storage.Length then QueueFull else Admitted
      ensures if status == Admitted then node in held else node == null
    {
      hide Inv, Stored, Chain, Apart, Tasks, Apply;
      StepKeeps(s, Submit);
      SubmitCounts(s);
      node := null;
      if stopping {
        discarded := discarded + 1;
        Commit(Apply(s, Submit));
        return PoolStopped, null;
      }
      if queued + reserved >= ring.storage.Length {
        rejected := rejected + 1;
        Commit(Apply(s, Submit));
        return QueueFull, null;
      }
      FreeIsThere(s.store.ring, s.store.free);
      node := TakeFree(s.store.ring);
      reserved := reserved + 1;
      Commit(Apply(s, Submit));
      status := Admitted;
    }

    lemma FreeIsThere(ids: seq<nat>, count: nat)
      requires Stored(ids, count)
      ensures |free| == count && ring.Valid() && |ring.Contents()| == |ids| == ring.size
    {
    }

    /** The second: the task goes into the ring, unless the pool stopped since. */
    method Publish(node: TaskNode, id: nat) returns (accepted: bool)
      requires Valid() && node in held && id in s.store.undecided
      modifies this`held, this`s, this`reserved, this`queued, this`discarded, node`task, ring`size, ring.storage
      ensures Valid() && s == Apply(old(s), Step.Publish(id)) && accepted == !stopping
      ensures !accepted ==> node in held
    {
      hide Inv, Stored, Chain, Apart, Tasks, Apply;
      StepKeeps(s, Step.Publish(id));
      PublishIs(s, id);
      PublishCounts(s, id);
      FreeIsThere(s.store.ring, s.store.free);
      accepted := !stopping;
      if accepted {
        reserved := reserved - 1;
        PushTask(node, id, s.store.ring);
        queued := queued + 1;
      } else {
        discarded := discarded + 1;
      }
      Commit(Apply(s, Step.Publish(id)));
    }

    /** The third: the node of a submission that met a stop goes back. */
    method Withdraw(node: TaskNode, id: nat) returns (notify: bool)
      requires Valid() && node in held && id in s.store.withdrawing
      modifies this`freeHead, this`free, this`held, this`s, this`reserved, node`next
      ensures Valid() && s == Apply(old(s), Step.Withdraw(id)) && notify == (reserved == 0)
      ensures notify ==> s.crew.alls == old(s).crew.alls + 1
    {
      hide Inv, Stored, Chain, Apart, Tasks;
      StepKeeps(s, Step.Withdraw(id));
      WithdrawCounts(s, id);
      FreeIsThere(s.store.ring, s.store.free);
      PutFree(node, s.store.ring);
      reserved := reserved - 1;
      notify := reserved == 0;
      Commit(Apply(s, Step.Withdraw(id)));
    }

    // ----- the pool threads

    /** One look at the queue: leave, sleep, or take the oldest task. */
    method TakeWork(woken: bool) returns (work: Work, node: TaskNode?)
      requires Valid() && Enabled(s, Check(woken))
      modifies this`held, this`s, this`queued, this`running, ring`head, ring`size
      ensures Valid() && s == Apply(old(s), Check(woken))
      ensures work == if stopping then Exit else if old(queued) == 0 then Sleep else Run
      ensures work == Run ==>
                node in held && old(s).store.ring != [] && node.task == Wrappers.Some(old(s).store.ring[0])
    {
      hide Inv, Stored, Chain, Apart, Tasks, Apply;
      StepKeeps(s, Check(woken));
      CheckIs(s, woken);
      RingCounts(s);
      work, node := Exit, null;
      if !stopping {
        work := Sleep;
        if queued != 0 {
          FreeIsThere(s.store.ring, s.store.free);
          node := PopTask(s.store.ring);
          queued := queued - 1;
          running := running + 1;
          work := Run;
        }
      }
      Commit(Apply(s, Check(woken)));
    }

    /** The task is done and destroyed. */
    method FinishWork(node: TaskNode, id: nat)
      requires Valid() && node in held && id in s.store.running
      modifies this`freeHead, this`free, this`held, this`s, this`running, this`completed, node`next
      ensures Valid() && s == Apply(old(s), Finish(id))
    {
      hide Inv, Stored, Chain, Apart, Tasks;
      StepKeeps(s, Finish(id));
      FinishCounts(s, id);
      FreeIsThere(s.store.ring, s.store.free);
      PutFree(node, s.store.ring);
      running := running - 1;
      completed := completed + 1;
      Commit(Apply(s, Finish(id)));
    }

    // ----- stop() and join()

    /** stop() under the lock: how many tasks its first caller must drop. */
    method BeginStop(thread: nat) returns (dropped: nat)
      requires Valid()
      modifies this`s, this`stopping, this`discarded, this`queued, this`drainThread
      ensures Valid() && s == Apply(old(s), Stop(thread))
      ensures dropped == if old(stopping) then 0 else old(queued)
      ensures !old(stopping) ==> dropped == s.gate.toDrop
    {
      hide Inv, Stored, Chain, Apart, Tasks, Apply;
      StepKeeps(s, Stop(thread));
      StopIs(s, thread);
      dropped := 0;
      if stopping {
        return;
      }
      StopCounts(s);
      stopping := true;
      discarded := discarded + queued;
      dropped, queued := queued, 0;
      if dropped != 0 {
        drainThread := Wrappers.Some(thread);
      }
      Commit(Apply(s, Stop(thread)));
    }

    /** One turn of the drain up to the destruction of the task, without the lock. */
    method PopDropped() returns (node: TaskNode)
      requires Valid() && Enabled(s, TakeDropped)
      modifies this`held, this`s, ring`head, ring`size
      ensures Valid() && s == Apply(old(s), TakeDropped) && node in held
    {
      hide Inv, Stored, Chain, Apart, Tasks;
      TakeDroppedKeeps(s);
      FreeIsThere(s.store.ring, s.store.free);
      node := PopTask(s.store.ring);
      Commit(Apply(s, TakeDropped));
    }

    /** release_node */
    method ReleaseNode(node: TaskNode)
      requires Valid() && node in held && Enabled(s, ReleaseDropped)
      modifies this`freeHead, this`free, this`held, this`s, node`next
      ensures Valid() && s == Apply(old(s), ReleaseDropped)
    {
      hide Inv, Stored, Chain, Apart, Tasks;
      StepKeeps(s, ReleaseDropped);
      FreeIsThere(s.store.ring, s.store.free);
      PutFree(node, s.store.ring);
      Commit(Apply(s, ReleaseDropped));
    }

    method FinishDrain()
      requires Valid() && Enabled(s, EndDrain)
      modifies this`s, this`drainThread
      ensures Valid() && s == Apply(old(s), EndDrain)
    {
      hide Inv, Stored, Chain, Apart, Tasks;
      StepKeeps(s, EndDrain);
      drainThread := Wrappers.None;
      Commit(Apply(s, EndDrain));
    }

    /** The whole drain: every dropped task leaves the ring, oldest first, and its node goes back. */
    method Drain(dropped: nat)
      requires Valid() && stopping && dropped == s.gate.toDrop && drainThread.Some? && s.store.dropping.None?
      modifies this`freeHead, this`free, this`held, this`s, this`drainThread, ring`head, ring`size, all`next
      ensures Valid() && drainThread.None? && s.gate.toDrop == 0 && s.store.ring == []
      ensures s.ledger == old(s).ledger && |free| == |old(free)| + dropped
    {
      hide Inv, Stored, Chain, Apart, Tasks;
      FreeIsThere(s.store.ring, s.store.free);
      var left := dropped;
      while left != 0
        invariant Valid() && left == s.gate.toDrop && drainThread.Some? && s.store.dropping.None?
        invariant s.ledger == old(s).ledger && s.store.free + left == old(s).store.free + dropped
      {
        DropOne();
        left := left - 1;
      }
      RingCounts(s);
      FinishDrain();
      FreeIsThere(s.store.ring, s.store.free);
    }

    method DropOne()
      requires Valid() && s.gate.toDrop > 0 && s.store.dropping.None?
      modifies this`freeHead, this`free, this`held, this`s, ring`head, ring`size, all`next
      ensures Valid() && s.gate == old(s).gate.(toDrop := old(s).gate.toDrop - 1) && s.store.dropping.None?
      ensures s.ledger == old(s).ledger && s.store.free == old(s).store.free + 1
    {
      hide Inv, Stored, Chain, Apart, Tasks;
      TakeDroppedKeeps(s);
      var node := PopDropped();
      HeldIsOurs();
      ReleaseNode(node);
    }

    lemma HeldIsOurs()
      requires Valid()
      ensures held <= all
    {
    }

    /** The first section of join(): whether this caller joins the threads; it waits while another does. */
    method BeginJoin(thread: nat) returns (waits: bool, joins: bool)
      requires Valid() && Enabled(s, EnterJoin(thread))
      modifies this`s, this`joining
      ensures Valid() && s == Apply(old(s), EnterJoin(thread))
      ensures waits == old(joining) && joins == At(s.gate, thread, JoinsThreads)
    {
      hide Inv, Stored, Chain, Apart, Tasks;
      StepKeeps(s, EnterJoin(thread));
      waits, joins := joining, !joining && !joined;
      if joins {
        joining := true;
      }
      Commit(Apply(s, EnterJoin(thread)));
    }

    /** Its last section: the joiner leaves once no submission holds a node and nobody else is draining. */
    method EndJoin(thread: nat) returns (returned: bool)
      requires Valid() && Enabled(s, LeaveJoin(thread))
      modifies this`s
      ensures Valid() && s == Apply(old(s), LeaveJoin(thread))
      ensures returned == At(s.gate, thread, Returned)
    {
      hide Inv, Stored, Chain, Apart, Tasks;
      StepKeeps(s, LeaveJoin(thread));
      returned := (drainThread.None? || drainThread == Wrappers.Some(thread)) && reserved == 0;
      Commit(Apply(s, LeaveJoin(thread)));
    }

    /** After the threads were joined. */
    method RecordJoined(thread: nat)
      requires Valid() && Enabled(s, ThreadsJoined(thread))
      modifies this`s, this`joining, this`joined
      ensures Valid() && s == Apply(old(s), ThreadsJoined(thread))
    {
      hide Inv, Stored, Chain, Apart, Tasks;
      StepKeeps(s, ThreadsJoined(thread));
      joining, joined := false, true;
      Commit(Apply(s, ThreadsJoined(thread)));
    }
  }

  // ----- what the counters of one step depend on

  lemma SubmitCounts(s: State)
    requires Inv(s)
    ensures !s.gate.stopping && s.store.queued + s.store.reserved < s.store.capacity ==> s.store.free > 0
    ensures Apply(s, Submit) == ApplySubmit(s)
  {
  }

  lemma PublishCounts(s: State, id: nat)
    requires Inv(s) && id in s.store.undecided
    ensures s.store.reserved > 0 && (!s.gate.stopping ==> |s.store.ring| < s.store.capacity)
  {
    SplitOff(s.store.undecided, id);
  }

  lemma PublishIs(s: State, id: nat)
    ensures Apply(s, Step.Publish(id)) == ApplyPublish(s, id)
  {
  }

  lemma StopIs(s: State, thread: nat)
    ensures Apply(s, Stop(thread)) == ApplyStop(s, thread)
  {
  }

  lemma CheckIs(s: State, woken: bool)
    ensures Apply(s, Check(woken)) == ApplyCheck(s, woken)
  {
  }

  lemma WithdrawCounts(s: State, id: nat)
    requires Inv(s) && id in s.store.withdrawing
    ensures s.store.reserved > 0
  {
    SplitOff(s.store.withdrawing, id);
  }

  lemma FinishCounts(s: State, id: nat)
    requires Inv(s) && id in s.store.running
    ensures |s.store.running - multiset{id}| + 1 == |s.store.running|
  {
    SplitOff(s.store.running, id);
  }

  lemma RingCounts(s: State)
    requires Inv(s)
    ensures |s.store.ring| == if s.gate.stopping then s.gate.toDrop else s.store.queued
  {
  }

  lemma StopCounts(s: State)
    requires Inv(s) && !s.gate.stopping
    ensures s.gate.drainer == Wrappers.None && s.gate.toDrop == 0 && |s.store.ring| == s.store.queued
    ensures |s.ledger.discarded + multiset(s.store.ring)| == |s.ledger.discarded| + s.store.queued
  {
  }
}
