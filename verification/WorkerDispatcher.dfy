/** The worker dispatcher's slab of index-linked nodes (ruvia-core/src/worker_dispatcher.cpp):
    free, ready, batch and abandoned chains through one `next` field per node. Each
    method is one critical section and is shown to be the step of the same name in
    DispatcherSteps; `this.s` is the state those steps speak of. */
module WorkerDispatcher {
  import opened Sequences
  import opened Tally
  import opened Wrappers
  import opened DispatcherSteps

  const NO_NODE: int := -1

  datatype Node = Node(task: Option<nat>, next: int)

  /** The local variables of one abandon loop, or of one direct release. */
  datatype Frame = Frame(head: int, loop: bool)

  function Head(list: seq<nat>): int {
    if list == [] then NO_NODE else list[0]
  }

  function Last(list: seq<nat>): int {
    if list == [] then NO_NODE else list[|list| - 1]
  }

  /** The nodes of `list` are linked in that order. */
  ghost predicate Linked(nodes: seq<Node>, head: int, list: seq<nat>) {
    && head == Head(list)
    && (forall k :: 0 <= k < |list| ==> list[k] < |nodes|)
    && (forall k {:trigger nodes[list[k]]} {:trigger Successor(list, k)} ::
          0 <= k < |list| ==> nodes[list[k]].next == Successor(list, k))
  }

  /** Where each node is. */
  datatype Places = Places(
    free: seq<nat>,
    held: set<nat>,             // reserved, still to be published
    empty: set<nat>,            // given up before it had a task, still to be released
    ready: seq<nat>,
    batch: seq<nat>,
    chains: seq<seq<nat>>,      // what each abandon loop still has to release
    tasks: seq<seq<nat>>)       // ... and the tasks in it

  ghost predicate PartitionOk(p: Places, n: nat) {
    multiset(p.free) + multiset(p.held) + multiset(p.empty) + multiset(p.ready) + multiset(p.batch) + Union(p.chains)
    == AllBelow(n)
  }

  datatype Links = Links(freeHead: int, readyHead: int, readyTail: int, batchHead: int)

  ghost predicate ListsOk(nodes: seq<Node>, l: Links, p: Places) {
    && Linked(nodes, l.freeHead, p.free)
    && Linked(nodes, l.readyHead, p.ready) && l.readyTail == Last(p.ready)
    && Linked(nodes, l.batchHead, p.batch)
  }

  ghost predicate FrameOk(nodes: seq<Node>, f: Frame, chain: seq<nat>) {
    if f.loop then Linked(nodes, f.head, chain)
    else |chain| <= 1 && f.head == Head(chain) && (chain != [] ==> chain[0] < |nodes|)
  }

  ghost predicate FramesOk(nodes: seq<Node>, frames: seq<Frame>, chains: seq<seq<nat>>) {
    |frames| == |chains| && forall k :: 0 <= k < |frames| ==> FrameOk(nodes, frames[k], chains[k])
  }

  /** The nodes of `list` hold the tasks of `tasks`, in order. */
  ghost predicate Hold(nodes: seq<Node>, list: seq<nat>, tasks: seq<nat>) {
    |list| == |tasks| && forall k :: 0 <= k < |list| ==> list[k] < |nodes| && nodes[list[k]].task == Some(tasks[k])
  }

  ghost predicate TasksOk(nodes: seq<Node>, p: Places, b: Slab) {
    && Hold(nodes, p.ready, b.ready)
    && |p.batch| == |b.batch| && b.completed <= |b.batch|
    && Hold(nodes, p.batch[b.completed..], b.batch[b.completed..])
    && |p.chains| == |p.tasks| && (forall k :: 0 <= k < |p.chains| ==> Hold(nodes, p.chains[k], p.tasks[k]))
    && Union(p.tasks) == b.loose
  }

  ghost predicate CountsOk(p: Places, b: Slab) {
    b.free == |p.free| && b.reserved == |p.held| && b.looseEmpty == |p.empty|
  }

  // ----- lists through one link field

  lemma OtherLinks(nodes: seq<Node>, i: nat, node: Node, head: int, list: seq<nat>)
    requires Linked(nodes, head, list) && i < |nodes| && i !in list
    ensures Linked(nodes[i := node], head, list)
  {
  }

  lemma OtherFrames(nodes: seq<Node>, i: nat, node: Node, frames: seq<Frame>, chains: seq<seq<nat>>)
    requires FramesOk(nodes, frames, chains) && i < |nodes| && i !in Union(chains)
    ensures FramesOk(nodes[i := node], frames, chains)
  {
    forall k | 0 <= k < |frames| ensures FrameOk(nodes[i := node], frames[k], chains[k]) {
      if i in chains[k] { MemberOfUnion(chains, k, i); }
    }
  }

  lemma NodeIsIn(p: Places, n: nat, i: nat)
    requires PartitionOk(p, n)
    ensures i in p.free || i in p.held || i in p.empty || i in p.ready || i in p.batch || i in Union(p.chains) ==> i < n
    ensures i in p.held ==> i !in p.free && i !in p.empty && i !in p.ready && i !in p.batch && i !in Union(p.chains)
    ensures i in p.empty ==> i !in p.free && i !in p.held && i !in p.ready && i !in p.batch && i !in Union(p.chains)
    ensures i in p.free ==> i !in p.held && i !in p.empty && i !in p.ready && i !in p.batch && i !in Union(p.chains)
    ensures i in p.ready ==> i !in p.free && i !in p.held && i !in p.empty && i !in p.batch && i !in Union(p.chains)
    ensures i in p.batch ==> i !in p.free && i !in p.held && i !in p.empty && i !in p.ready && i !in Union(p.chains)
    ensures i in Union(p.chains) ==> i !in p.free && i !in p.held && i !in p.empty && i !in p.ready && i !in p.batch
    ensures multiset(p.free)[i] <= 1 && multiset(p.ready)[i] <= 1 && multiset(p.batch)[i] <= 1
            && Union(p.chains)[i] <= 1
  {
    var a, b, c, d, e, f := multiset(p.free), multiset(p.held), multiset(p.empty), multiset(p.ready),
        multiset(p.batch), Union(p.chains);
    assert (a + b + c + d + e + f)[i] == AllBelow(n)[i];
    assert (i in p.free <==> i in a) && (i in p.ready <==> i in d) && (i in p.batch <==> i in e);
    assert (i in p.held <==> i in b) && (i in p.empty <==> i in c);
  }

  // ----- moves between places

  lemma FreeToHeld(p: Places, n: nat)
    requires PartitionOk(p, n) && p.free != []
    ensures PartitionOk(p.(free := p.free[1..], held := p.held + {p.free[0]}), n)
    ensures |p.held + {p.free[0]}| == |p.held| + 1
  {
    NodeIsIn(p, n, p.free[0]);
    SplitFirst(p.free);
    assert multiset(p.held + {p.free[0]}) == multiset(p.held) + multiset{p.free[0]};
  }

  lemma HeldToElsewhere(p: Places, n: nat, i: nat)
    requires PartitionOk(p, n) && i in p.held
    ensures PartitionOk(p.(held := p.held - {i}, ready := p.ready + [i]), n)
    ensures PartitionOk(p.(held := p.held - {i}, chains := p.chains + [[i]]), n)
    ensures PartitionOk(p.(held := p.held - {i}, empty := p.empty + {i}), n)
    ensures |p.held - {i}| == |p.held| - 1 && |p.empty + {i}| == |p.empty| + 1
  {
    NodeIsIn(p, n, i);
    UnionGrows(p.chains, [i]);
    assert multiset(p.held) == multiset(p.held - {i}) + multiset{i};
    assert multiset(p.empty + {i}) == multiset(p.empty) + multiset{i};
    assert multiset(p.ready + [i]) == multiset(p.ready) + multiset{i};
  }

  lemma EmptyToFree(p: Places, n: nat, i: nat)
    requires PartitionOk(p, n) && i in p.empty
    ensures PartitionOk(p.(empty := p.empty - {i}, free := [i] + p.free), n)
    ensures |p.empty - {i}| == |p.empty| - 1
  {
    assert multiset(p.empty) == multiset(p.empty - {i}) + multiset{i};
    assert multiset([i] + p.free) == multiset{i} + multiset(p.free);
  }

  lemma ChainToFree(p: Places, n: nat, k: nat)
    requires PartitionOk(p, n) && k < |p.chains| && p.chains[k] != []
    ensures PartitionOk(p.(chains := p.chains[k := p.chains[k][1..]], free := [p.chains[k][0]] + p.free), n)
  {
    var c := p.chains[k];
    UnionPops(p.chains, k);
    assert multiset([c[0]] + p.free) == multiset{c[0]} + multiset(p.free);
  }

  lemma ReadyToBatch(p: Places, n: nat)
    requires PartitionOk(p, n) && p.batch == []
    ensures PartitionOk(p.(batch := p.ready, ready := []), n)
  {
  }

  lemma BatchToFree(p: Places, n: nat, done: nat)
    requires PartitionOk(p, n) && done <= |p.batch|
    ensures PartitionOk(p.(batch := [], free := p.batch[..done] + p.free, chains := p.chains + [p.batch[done..]]), n)
    ensures done == |p.batch| ==> PartitionOk(p.(batch := [], free := p.batch + p.free), n)
  {
    SplitAt(p.batch, done);
    UnionGrows(p.chains, p.batch[done..]);
    assert multiset(p.batch[..done] + p.free) == multiset(p.batch[..done]) + multiset(p.free);
    assert multiset(p.batch + p.free) == multiset(p.batch) + multiset(p.free);
  }

  lemma ReadyToChain(p: Places, n: nat)
    requires PartitionOk(p, n)
    ensures PartitionOk(p.(ready := [], chains := p.chains + [p.ready]), n)
  {
    UnionGrows(p.chains, p.ready);
  }

  // ----- links

  lemma PopLinks(nodes: seq<Node>, head: int, list: seq<nat>)
    requires Linked(nodes, head, list) && list != []
    ensures 0 <= head < |nodes| && head == list[0] && Linked(nodes, nodes[head].next, list[1..])
  {
    assert nodes[list[0]].next == Successor(list, 0);
    forall k | 0 <= k < |list[1..]| ensures nodes[list[1..][k]].next == Successor(list[1..], k) {
      assert nodes[list[k + 1]].next == Successor(list, k + 1);
    }
  }

  lemma PrependLinks(nodes: seq<Node>, head: int, list: seq<nat>, i: nat, task: Option<nat>)
    requires Linked(nodes, head, list) && i < |nodes| && i !in list
    ensures Linked(nodes[i := Node(task, head)], i, [i] + list)
  {
    var nodes', list' := nodes[i := Node(task, head)], [i] + list;
    forall k | 0 <= k < |list'| ensures nodes'[list'[k]].next == Successor(list', k) {
      if k > 0 {
        assert list'[k] == list[k - 1] && nodes[list[k - 1]].next == Successor(list, k - 1);
      }
    }
  }

  /** Appending a node at the tail. */
  lemma PushLinks(nodes: seq<Node>, head: int, list: seq<nat>, i: nat)
    requires Linked(nodes, head, list) && i < |nodes| && i !in list
    ensures list == [] ==> Linked(nodes[i := nodes[i].(next := NO_NODE)], i, list + [i])
    ensures list != [] ==> (0 <= Last(list) < |nodes| &&
                            Linked(TailLinked(nodes, Last(list), i), head, list + [i]))
  {
  }

  function TailLinked(nodes: seq<Node>, tail: nat, i: nat): seq<Node>
    requires tail < |nodes| && i < |nodes|
  {
    var linked := nodes[i := nodes[i].(next := NO_NODE)];
    linked[tail := linked[tail].(next := i)]
  }

  /** The finished part of a batch, up to node `done - 1`, is spliced before the free
      list; what follows it stays linked. */
  lemma SpliceLinks(nodes: seq<Node>, head: int, list: seq<nat>, done: nat, freeHead: int, free: seq<nat>)
    requires Linked(nodes, head, list) && Linked(nodes, freeHead, free) && 0 < done <= |list|
    requires forall k :: 0 <= k < |list| ==> list[k] !in free
    ensures list[done - 1] < |nodes|
    ensures Linked(nodes[list[done - 1] := nodes[list[done - 1]].(next := freeHead)], head, list[..done] + free)
  {
    var last := list[done - 1];
    var nodes', joined := nodes[last := nodes[last].(next := freeHead)], list[..done] + free;
    forall k | 0 <= k < |joined| ensures joined[k] < |nodes| && nodes'[joined[k]].next == Successor(joined, k) {
      if k < done {
        SplicedFront(nodes, head, list, done, freeHead, free, k);
      } else {
        SplicedBack(nodes, list, done, freeHead, free, k - done);
      }
    }
  }

  lemma SplicedFront(nodes: seq<Node>, head: int, list: seq<nat>, done: nat, freeHead: int, free: seq<nat>, k: nat)
    requires Linked(nodes, head, list) && freeHead == Head(free) && k < done <= |list|
    ensures list[done - 1] < |nodes| && list[k] < |nodes|
    ensures nodes[list[done - 1] := nodes[list[done - 1]].(next := freeHead)][list[k]].next
            == Successor(list[..done] + free, k)
  {
    assert nodes[list[k]].next == Successor(list, k);
    if k < done - 1 { DistinctAt(nodes, head, list, k, done - 1); }
  }

  lemma SplicedBack(nodes: seq<Node>, list: seq<nat>, done: nat, freeHead: int, free: seq<nat>, j: nat)
    requires Linked(nodes, freeHead, free) && j < |free| && 0 < done <= |list| && list[done - 1] < |nodes|
    requires list[done - 1] !in free
    ensures free[j] < |nodes|
    ensures nodes[list[done - 1] := nodes[list[done - 1]].(next := freeHead)][free[j]].next
            == Successor(list[..done] + free, done + j)
  {
    assert nodes[free[j]].next == Successor(free, j) && free[j] in free;
  }

  lemma RestLinks(nodes: seq<Node>, head: int, list: seq<nat>, done: nat, node: Node)
    requires Linked(nodes, head, list) && 0 < done <= |list|
    ensures list[done - 1] < |nodes|
    ensures Linked(nodes[list[done - 1] := node], nodes[list[done - 1]].next, list[done..])
  {
    var last, rest := list[done - 1], list[done..];
    DistinctLinks(nodes, head, list);
    assert nodes[last].next == Successor(list, done - 1);
    forall k | 0 <= k < |rest| ensures rest[k] < |nodes| && nodes[last := node][rest[k]].next == Successor(rest, k) {
      assert rest[k] == list[done + k] && nodes[list[done + k]].next == Successor(list, done + k);
    }
  }

  /** A list that ends visits no node twice. */
  lemma DistinctLinks(nodes: seq<Node>, head: int, list: seq<nat>)
    requires Linked(nodes, head, list)
    ensures forall j, k :: 0 <= j < k < |list| ==> list[j] != list[k]
  {
    forall j, k | 0 <= j < k < |list| ensures list[j] != list[k] {
      DistinctAt(nodes, head, list, j, k);
    }
  }

  lemma {:induction false} DistinctAt(nodes: seq<Node>, head: int, list: seq<nat>, j: nat, k: nat)
    requires Linked(nodes, head, list) && j < k < |list|
    ensures list[j] != list[k]
    decreases |list| - k
  {
    assert nodes[list[j]].next == Successor(list, j) && nodes[list[k]].next == Successor(list, k);
    if k + 1 < |list| {
      DistinctAt(nodes, head, list, j + 1, k + 1);
    }
  }

  /** Writing to a node that is on none of the lists. */
  lemma WriteElsewhere(nodes: seq<Node>, i: nat, node: Node, l: Links, frames: seq<Frame>, p: Places)
    requires ListsOk(nodes, l, p) && FramesOk(nodes, frames, p.chains) && i < |nodes|
    requires i !in p.free && i !in p.ready && i !in p.batch && i !in Union(p.chains)
    ensures ListsOk(nodes[i := node], l, p) && FramesOk(nodes[i := node], frames, p.chains)
  {
    hide Linked, FramesOk;
    OtherLinks(nodes, i, node, l.freeHead, p.free);
    OtherLinks(nodes, i, node, l.readyHead, p.ready);
    OtherLinks(nodes, i, node, l.batchHead, p.batch);
    OtherFrames(nodes, i, node, frames, p.chains);
  }

  // ----- tasks in nodes

  lemma OtherTasks(nodes: seq<Node>, i: nat, node: Node, p: Places, b: Slab)
    requires TasksOk(nodes, p, b) && i < |nodes|
    requires (i !in p.ready && i !in p.batch[b.completed..] && i !in Union(p.chains)) || node.task == nodes[i].task
    ensures TasksOk(nodes[i := node], p, b)
  {
    forall k | 0 <= k < |p.chains| ensures Hold(nodes[i := node], p.chains[k], p.tasks[k]) {
      assert Hold(nodes, p.chains[k], p.tasks[k]);
      if i in p.chains[k] { MemberOfUnion(p.chains, k, i); }
    }
  }

  // ----- the slab under each critical section

  ghost predicate Layout(nodes: seq<Node>, l: Links, frames: seq<Frame>, p: Places, b: Slab) {
    PartitionOk(p, |nodes|) && ListsOk(nodes, l, p) && FramesOk(nodes, frames, p.chains) && TasksOk(nodes, p, b)
        && CountsOk(p, b)
  }

  lemma SameSlab(nodes: seq<Node>, l: Links, frames: seq<Frame>, p: Places, b: Slab, b': Slab)
    requires Layout(nodes, l, frames, p, b)
    requires b' == b.(started := b'.started, pending := b'.pending, active := b'.active)
    ensures Layout(nodes, l, frames, p, b')
  {
  }

  lemma ReserveLayout(nodes: seq<Node>, l: Links, frames: seq<Frame>, p: Places, b: Slab, pending: int)
    requires Layout(nodes, l, frames, p, b) && p.free != []
    ensures 0 <= l.freeHead < |nodes|
    ensures Layout(nodes, l.(freeHead := nodes[l.freeHead].next), frames,
                   p.(free := p.free[1..], held := p.held + {l.freeHead}),
                   b.(free := b.free - 1, reserved := b.reserved + 1, pending := pending))
  {
    hide PartitionOk, Linked, FramesOk, Hold;
    PopLinks(nodes, l.freeHead, p.free);
    FreeToHeld(p, |nodes|);
  }

  /** The owner of a held node moves its task in. */
  lemma FillLayout(nodes: seq<Node>, l: Links, frames: seq<Frame>, p: Places, b: Slab, i: nat, node: Node)
    requires Layout(nodes, l, frames, p, b) && i in p.held
    ensures i < |nodes| && Layout(nodes[i := node], l, frames, p, b)
  {
    hide PartitionOk, ListsOk, FramesOk, TasksOk, CountsOk;
    NodeIsIn(p, |nodes|, i);
    WriteElsewhere(nodes, i, node, l, frames, p);
    OtherTasks(nodes, i, node, p, b);
  }

  lemma PushReadyLayout(nodes: seq<Node>, l: Links, frames: seq<Frame>, p: Places, b: Slab, i: nat, t: nat)
    requires Layout(nodes, l, frames, p, b) && i in p.held && i < |nodes| && nodes[i].task == Some(t)
    ensures l.readyTail == NO_NODE || 0 <= l.readyTail < |nodes|
    ensures Layout(if l.readyTail == NO_NODE then nodes[i := nodes[i].(next := NO_NODE)]
              else TailLinked(nodes, l.readyTail, i),
                   l.(readyHead := if l.readyTail == NO_NODE then i else l.readyHead, readyTail := i), frames,
                   p.(held := p.held - {i}, ready := p.ready + [i]),
                   b.(reserved := b.reserved - 1, ready := b.ready + [t]))
  {
    hide PartitionOk, Linked, FramesOk, TasksOk;
    NodeIsIn(p, |nodes|, i);
    HeldToElsewhere(p, |nodes|, i);
    PushLinks(nodes, l.readyHead, p.ready, i);
    ReadyTail(nodes, l.readyHead, p.ready);
    var linked := nodes[i := nodes[i].(next := NO_NODE)];
    WriteElsewhere(nodes, i, linked[i], l, frames, p);
    OtherTasks(nodes, i, linked[i], p, b);
    if l.readyTail == NO_NODE {
      PublishedTask(linked, p, b, i, t);
    } else {
      TailElsewhere(linked, l, frames, p, b, l.readyTail, linked[l.readyTail].(next := i));
      PublishedTask(TailLinked(nodes, l.readyTail, i), p, b, i, t);
    }
  }

  lemma TailElsewhere(nodes: seq<Node>, l: Links, frames: seq<Frame>, p: Places, b: Slab, tail: nat, node: Node)
    requires PartitionOk(p, |nodes|) && ListsOk(nodes, l, p) && FramesOk(nodes, frames, p.chains)
             && TasksOk(nodes, p, b)
    requires tail in p.ready && tail < |nodes| && node.task == nodes[tail].task
    ensures Linked(nodes[tail := node], l.freeHead, p.free) && Linked(nodes[tail := node], l.batchHead, p.batch)
    ensures FramesOk(nodes[tail := node], frames, p.chains) && TasksOk(nodes[tail := node], p, b)
  {
    hide PartitionOk, Linked, FramesOk, TasksOk;
    NodeIsIn(p, |nodes|, tail);
    OtherLinks(nodes, tail, node, l.freeHead, p.free);
    OtherLinks(nodes, tail, node, l.batchHead, p.batch);
    OtherFrames(nodes, tail, node, frames, p.chains);
    OtherTasks(nodes, tail, node, p, b);
  }

  lemma ReadyTail(nodes: seq<Node>, head: int, list: seq<nat>)
    requires Linked(nodes, head, list)
    ensures (Last(list) == NO_NODE <==> list == []) && (head == NO_NODE <==> list == [])
    ensures list != [] ==> Last(list) in list && Last(list) < |nodes|
  {
  }

  lemma PublishedTask(nodes: seq<Node>, p: Places, b: Slab, i: nat, t: nat)
    requires TasksOk(nodes, p, b) && i < |nodes| && nodes[i].task == Some(t)
    ensures TasksOk(nodes, p.(held := p.held - {i}, ready := p.ready + [i]),
              b.(reserved := b.reserved - 1, ready := b.ready + [t]))
  {
  }

  /** A held node with its task is claimed by release_abandoned_node. */
  lemma DropLayout(nodes: seq<Node>, l: Links, frames: seq<Frame>, p: Places, b: Slab, i: nat, t: nat)
    requires Layout(nodes, l, frames, p, b) && i in p.held && i < |nodes| && nodes[i].task == Some(t)
    ensures Layout(nodes, l, frames + [Frame(i, false)],
                   p.(held := p.held - {i}, chains := p.chains + [[i]], tasks := p.tasks + [[t]]),
                   b.(reserved := b.reserved - 1, loose := b.loose + multiset{t}))
  {
    hide PartitionOk, Linked;
    HeldToElsewhere(p, |nodes|, i);
    PartitionIgnoresTasks(p.(held := p.held - {i}, chains := p.chains + [[i]]), |nodes|, p.tasks + [[t]]);
    UnionGrows(p.tasks, [t]);
  }

  lemma PartitionIgnoresTasks(p: Places, n: nat, tasks: seq<seq<nat>>)
    requires PartitionOk(p, n)
    ensures PartitionOk(p.(tasks := tasks), n)
  {
  }

  lemma GiveUpLayout(nodes: seq<Node>, l: Links, frames: seq<Frame>, p: Places, b: Slab, i: nat)
    requires Layout(nodes, l, frames, p, b) && i in p.held
    ensures Layout(nodes, l, frames, p.(held := p.held - {i}, empty := p.empty + {i}),
                   b.(reserved := b.reserved - 1, looseEmpty := b.looseEmpty + 1))
  {
    hide PartitionOk, Linked, FramesOk, Hold;
    HeldToElsewhere(p, |nodes|, i);
  }

  lemma ReleaseEmptyLayout(nodes: seq<Node>, l: Links, frames: seq<Frame>, p: Places, b: Slab, i: nat, pending: int)
    requires Layout(nodes, l, frames, p, b) && i in p.empty && b.looseEmpty > 0
    ensures i < |nodes|
    ensures Layout(nodes[i := Node(None, l.freeHead)], l.(freeHead := i), frames,
                   p.(empty := p.empty - {i}, free := [i] + p.free),
                   b.(free := b.free + 1, pending := pending, looseEmpty := b.looseEmpty - 1))
  {
    hide PartitionOk, Linked, FramesOk, TasksOk;
    var node := Node(None, l.freeHead);
    NodeIsIn(p, |nodes|, i);
    EmptyToFree(p, |nodes|, i);
    OtherLinks(nodes, i, node, l.readyHead, p.ready);
    OtherLinks(nodes, i, node, l.batchHead, p.batch);
    PrependLinks(nodes, l.freeHead, p.free, i, None);
    OtherFrames(nodes, i, node, frames, p.chains);
    OtherTasks(nodes, i, node, p, b);
    TasksIgnoreFree(nodes[i := node], p, b, p.(empty := p.empty - {i}, free := [i] + p.free),
                    b.(free := b.free + 1, pending := pending, looseEmpty := b.looseEmpty - 1));
  }

  lemma TasksIgnoreFree(nodes: seq<Node>, p: Places, b: Slab, p': Places, b': Slab)
    requires TasksOk(nodes, p, b)
    requires p' == p.(free := p'.free, held := p'.held, empty := p'.empty)
    requires b' == b.(free := b'.free, reserved := b'.reserved, looseEmpty := b'.looseEmpty, pending := b'.pending,
               active := b'.active)
    ensures TasksOk(nodes, p', b')
  {
  }

  /** One turn of an abandon loop: chain k's first node returns to the free list. */
  lemma ReleaseLayout(nodes: seq<Node>, l: Links, frames: seq<Frame>, p: Places, b: Slab, k: nat, pending: int)
    requires Layout(nodes, l, frames, p, b) && k < |p.chains| && p.chains[k] != []
    ensures k < |frames| && k < |p.tasks| == |p.chains| && p.tasks[k] != [] && p.tasks[k][0] in b.loose
    ensures var i, t := p.chains[k][0], p.tasks[k][0];
      && i < |nodes| && frames[k].head == i && nodes[i].task == Some(t)
      && Layout(nodes[i := Node(None, l.freeHead)], l.(freeHead := i),
                frames[k := Frame(if frames[k].loop then nodes[i].next else NO_NODE, frames[k].loop)],
                p.(chains := p.chains[k := p.chains[k][1..]], tasks := p.tasks[k := p.tasks[k][1..]],
                   free := [i] + p.free),
                b.(free := b.free + 1, pending := pending, loose := b.loose - multiset{t}))
  {
    hide PartitionOk, Linked;
    var c, i := p.chains[k], p.chains[k][0];
    var node := Node(None, l.freeHead);
    assert Hold(nodes, p.chains[k], p.tasks[k]);
    MemberOfUnion(p.chains, k, i);
    MemberOfUnion(p.tasks, k, p.tasks[k][0]);
    NodeIsIn(p, |nodes|, i);
    HeadIsNowhereElse(p, |nodes|, k);
    ChainToFree(p, |nodes|, k);
    PartitionIgnoresTasks(p.(chains := p.chains[k := c[1..]], free := [i] + p.free), |nodes|,
                          p.tasks[k := p.tasks[k][1..]]);
    OtherLinks(nodes, i, node, l.readyHead, p.ready);
    OtherLinks(nodes, i, node, l.batchHead, p.batch);
    PrependLinks(nodes, l.freeHead, p.free, i, None);
    ReleaseFrames(nodes, frames, p.chains, k, node);
    ReleaseTasks(nodes, p, b, k, node);
    TasksIgnoreFree(nodes[i := node], p.(chains := p.chains[k := c[1..]], tasks := p.tasks[k := p.tasks[k][1..]]),
                    b.(loose := b.loose - multiset{p.tasks[k][0]}),
                    p.(chains := p.chains[k := c[1..]], tasks := p.tasks[k := p.tasks[k][1..]], free := [i] + p.free),
                    b.(free := b.free + 1, pending := pending, loose := b.loose - multiset{p.tasks[k][0]}));
  }

  lemma HeadIsNowhereElse(p: Places, n: nat, k: nat)
    requires PartitionOk(p, n) && k < |p.chains| && p.chains[k] != []
    ensures p.chains[k][0] !in Union(p.chains[k := p.chains[k][1..]])
  {
    NodeIsIn(p, n, p.chains[k][0]);
    UnionPops(p.chains, k);
  }

  lemma ReleaseFrames(nodes: seq<Node>, frames: seq<Frame>, chains: seq<seq<nat>>, k: nat, node: Node)
    requires FramesOk(nodes, frames, chains) && k < |chains| && chains[k] != []
    requires chains[k][0] !in Union(chains[k := chains[k][1..]])
    ensures chains[k][0] < |nodes| && frames[k].head == chains[k][0]
    ensures FramesOk(nodes[chains[k][0] := node],
                     frames[k := Frame(if frames[k].loop then nodes[chains[k][0]].next else NO_NODE, frames[k].loop)],
                     chains[k := chains[k][1..]])
  {
    var i, chains' := chains[k][0], chains[k := chains[k][1..]];
    assert FrameOk(nodes, frames[k], chains[k]);
    var frames' := frames[k := Frame(if frames[k].loop then nodes[i].next else NO_NODE, frames[k].loop)];
    if frames[k].loop { PopLinks(nodes, frames[k].head, chains[k]); }
    forall j | 0 <= j < |frames'| ensures FrameOk(nodes, frames'[j], chains'[j]) {
      if j != k { assert FrameOk(nodes, frames[j], chains[j]); }
    }
    OtherFrames(nodes, i, node, frames', chains');
  }

  lemma ReleaseTasks(nodes: seq<Node>, p: Places, b: Slab, k: nat, node: Node)
    requires TasksOk(nodes, p, b) && k < |p.chains| && p.chains[k] != [] && p.chains[k][0] < |nodes|
    requires p.chains[k][0] !in Union(p.chains[k := p.chains[k][1..]])
    requires p.chains[k][0] !in p.ready && p.chains[k][0] !in p.batch
    ensures p.tasks[k] != []
    ensures TasksOk(nodes[p.chains[k][0] := node],
              p.(chains := p.chains[k := p.chains[k][1..]], tasks := p.tasks[k := p.tasks[k][1..]]),
                    b.(loose := b.loose - multiset{p.tasks[k][0]}))
  {
    assert Hold(nodes, p.chains[k], p.tasks[k]);
    UnionPops(p.tasks, k);
    var p' := p.(chains := p.chains[k := p.chains[k][1..]], tasks := p.tasks[k := p.tasks[k][1..]]);
    forall j | 0 <= j < |p'.chains| ensures Hold(nodes, p'.chains[j], p'.tasks[j]) {
      if j != k { assert Hold(nodes, p.chains[j], p.tasks[j]); }
    }
    OtherTasks(nodes, p.chains[k][0], node, p', b.(loose := b.loose - multiset{p.tasks[k][0]}));
  }

  lemma BeginBatchLayout(nodes: seq<Node>, l: Links, frames: seq<Frame>, p: Places, b: Slab, pending: int, active: int)
    requires Layout(nodes, l, frames, p, b) && b.batch == []
    ensures Layout(nodes, Links(l.freeHead, NO_NODE, NO_NODE, l.readyHead), frames, p.(batch := p.ready, ready := []),
                   b.(batch := b.ready, ready := [], started := 0, completed := 0, pending := pending,
                      active := active))
  {
    hide PartitionOk, FramesOk;
    ReadyToBatch(p, |nodes|);
    assert b.ready[0..] == b.ready && p.ready[0..] == p.ready;
  }

  /** The task that has just run leaves its node. */
  lemma FinishLayout(nodes: seq<Node>, l: Links, frames: seq<Frame>, p: Places, b: Slab)
    requires Layout(nodes, l, frames, p, b) && b.completed < |b.batch|
    ensures p.batch[b.completed] < |nodes|
    ensures Layout(nodes[p.batch[b.completed] := nodes[p.batch[b.completed]].(task := None)], l, frames, p,
                   b.(completed := b.completed + 1))
  {
    hide PartitionOk, Linked, FramesOk, TasksOk;
    var i := BatchNode(nodes, l, p, b);
    NodeIsIn(p, |nodes|, i);
    DistinctLinks(nodes, l.batchHead, p.batch);
    FinishTasks(nodes, p, b);
    var node := nodes[i].(task := None);
    OtherLinks(nodes, i, node, l.freeHead, p.free);
    OtherLinks(nodes, i, node, l.readyHead, p.ready);
    SameLinks(nodes, i, node, l.batchHead, p.batch);
    OtherFrames(nodes, i, node, frames, p.chains);
  }

  lemma BatchNode(nodes: seq<Node>, l: Links, p: Places, b: Slab) returns (i: nat)
    requires Linked(nodes, l.batchHead, p.batch) && TasksOk(nodes, p, b) && b.completed < |b.batch|
    ensures |p.batch| == |b.batch| && i == p.batch[b.completed] && i < |nodes| && i in p.batch
  {
    i := p.batch[b.completed];
  }

  lemma SameLinks(nodes: seq<Node>, i: nat, node: Node, head: int, list: seq<nat>)
    requires Linked(nodes, head, list) && i < |nodes| && node.next == nodes[i].next
    ensures Linked(nodes[i := node], head, list)
  {
  }

  lemma FinishTasks(nodes: seq<Node>, p: Places, b: Slab)
    requires TasksOk(nodes, p, b) && b.completed < |b.batch| && p.batch[b.completed] < |nodes|
    requires forall k :: b.completed < k < |p.batch| ==> p.batch[k] != p.batch[b.completed]
    requires p.batch[b.completed] !in p.ready && p.batch[b.completed] !in Union(p.chains)
    ensures TasksOk(nodes[p.batch[b.completed] := nodes[p.batch[b.completed]].(task := None)], p,
              b.(completed := b.completed + 1))
  {
    var i, b' := p.batch[b.completed], b.(completed := b.completed + 1);
    assert Hold(nodes, p.batch[b.completed..], b.batch[b.completed..]);
    forall k | 0 <= k < |p.batch[b'.completed..]|
      ensures p.batch[b'.completed..][k] < |nodes|
              && nodes[p.batch[b'.completed..][k]].task == Some(b.batch[b'.completed..][k])
    {
      assert nodes[p.batch[b.completed..][k + 1]].task == Some(b.batch[b.completed..][k + 1]);
    }
    OtherTasks(nodes, i, nodes[i].(task := None), p, b');
  }

  /** The task failed: the batch through its node is free again, the rest is a chain. */
  lemma FailLayout(nodes: seq<Node>, l: Links, frames: seq<Frame>, p: Places, b: Slab, done: nat, pending: int,
                   active: int)
    requires Layout(nodes, l, frames, p, b) && 0 < done == b.completed <= |b.batch|
    ensures done <= |p.batch| && p.batch[done - 1] < |nodes|
    ensures var i := p.batch[done - 1];
      Layout(nodes[i := nodes[i].(next := l.freeHead)], l.(freeHead := l.batchHead, batchHead := NO_NODE),
             frames + [Frame(nodes[i].next, true)],
             p.(batch := [], free := p.batch[..done] + p.free, chains := p.chains + [p.batch[done..]],
                tasks := p.tasks + [b.batch[done..]]),
             b.(free := b.free + done, loose := b.loose + multiset(b.batch[done..]), batch := [], started := 0,
                 completed := 0,
                pending := pending, active := active))
  {
    hide PartitionOk, Linked, FramesOk, TasksOk;
    FailSizes(nodes, p, b);
    var i := p.batch[done - 1];
    BatchOff(p, |nodes|);
    var node := nodes[i].(next := l.freeHead);
    BatchToFree(p, |nodes|, done);
    PartitionIgnoresTasks(p.(batch := [], free := p.batch[..done] + p.free, chains := p.chains + [p.batch[done..]]),
                          |nodes|, p.tasks + [b.batch[done..]]);
    SpliceLinks(nodes, l.batchHead, p.batch, done, l.freeHead, p.free);
    RestLinks(nodes, l.batchHead, p.batch, done, node);
    OtherLinks(nodes, i, node, l.readyHead, p.ready);
    OtherFrames(nodes, i, node, frames, p.chains);
    NewFrame(nodes[i := node], frames, p.chains, Frame(nodes[i].next, true), p.batch[done..]);
    NoLinks(nodes[i := node]);
    FailTasks(nodes, p, b, done, node);
    TasksIgnoreFree(nodes[i := node],
                    p.(batch := [], chains := p.chains + [p.batch[done..]], tasks := p.tasks + [b.batch[done..]]),
                    b.(loose := b.loose + multiset(b.batch[done..]), batch := [], started := 0, completed := 0),
                    p.(batch := [], free := p.batch[..done] + p.free, chains := p.chains + [p.batch[done..]],
                       tasks := p.tasks + [b.batch[done..]]),
                    b.(free := b.free + done, loose := b.loose + multiset(b.batch[done..]), batch := [], started := 0,
                       completed := 0, pending := pending, active := active));
  }

  lemma FailTasks(nodes: seq<Node>, p: Places, b: Slab, done: nat, node: Node)
    requires TasksOk(nodes, p, b) && 0 < done == b.completed <= |b.batch|
    requires done <= |p.batch| && p.batch[done - 1] < |nodes| && node.task == nodes[p.batch[done - 1]].task
    ensures TasksOk(nodes[p.batch[done - 1] := node],
                    p.(batch := [], chains := p.chains + [p.batch[done..]], tasks := p.tasks + [b.batch[done..]]),
                    b.(loose := b.loose + multiset(b.batch[done..]), batch := [], started := 0, completed := 0))
  {
    OtherTasks(nodes, p.batch[done - 1], node, p, b);
    UnionGrows(p.tasks, b.batch[done..]);
  }

  lemma FailSizes(nodes: seq<Node>, p: Places, b: Slab)
    requires TasksOk(nodes, p, b)
    ensures |p.batch| == |b.batch| && |p.chains| == |p.tasks|
  {
  }

  lemma BatchOff(p: Places, n: nat)
    requires PartitionOk(p, n)
    ensures forall k :: 0 <= k < |p.batch| ==>
      p.batch[k] < n && p.batch[k] !in p.free && p.batch[k] !in p.ready && p.batch[k] !in Union(p.chains)
  {
    forall k | 0 <= k < |p.batch|
      ensures p.batch[k] < n && p.batch[k] !in p.free && p.batch[k] !in p.ready && p.batch[k] !in Union(p.chains)
    {
      NodeIsIn(p, n, p.batch[k]);
    }
  }

  lemma NewFrame(nodes: seq<Node>, frames: seq<Frame>, chains: seq<seq<nat>>, f: Frame, chain: seq<nat>)
    requires FramesOk(nodes, frames, chains) && FrameOk(nodes, f, chain)
    ensures FramesOk(nodes, frames + [f], chains + [chain])
  {
  }

  lemma NoLinks(nodes: seq<Node>)
    ensures Linked(nodes, NO_NODE, [])
  {
  }

  /** The finished batch returns to the free list. */
  lemma EndLayout(nodes: seq<Node>, l: Links, frames: seq<Frame>, p: Places, b: Slab, active: int)
    requires Layout(nodes, l, frames, p, b) && 0 < |b.batch| == b.completed
    ensures |p.batch| == |b.batch| && p.batch[|p.batch| - 1] < |nodes|
    ensures var i := p.batch[|p.batch| - 1];
      Layout(nodes[i := nodes[i].(next := l.freeHead)], l.(freeHead := l.batchHead, batchHead := NO_NODE), frames,
             p.(batch := [], free := p.batch + p.free),
             b.(free := b.free + |b.batch|, batch := [], started := 0, completed := 0, active := active))
  {
    hide PartitionOk, Linked, FramesOk;
    var i, done := p.batch[|p.batch| - 1], |p.batch|;
    BatchOff(p, |nodes|);
    var node := nodes[i].(next := l.freeHead);
    BatchToFree(p, |nodes|, done);
    assert p.batch[..done] == p.batch;
    SpliceLinks(nodes, l.batchHead, p.batch, done, l.freeHead, p.free);
    OtherLinks(nodes, i, node, l.readyHead, p.ready);
    OtherFrames(nodes, i, node, frames, p.chains);
    NoLinks(nodes[i := node]);
    OtherTasks(nodes, i, node, p, b);
  }

  lemma SpliceLayout(nodes: seq<Node>, l: Links, frames: seq<Frame>, p: Places, b: Slab)
    requires Layout(nodes, l, frames, p, b)
    ensures Layout(nodes, l.(readyHead := NO_NODE, readyTail := NO_NODE), frames + [Frame(l.readyHead, true)],
                   p.(ready := [], chains := p.chains + [p.ready], tasks := p.tasks + [b.ready]),
                   b.(ready := [], loose := b.loose + multiset(b.ready)))
  {
    hide PartitionOk, Linked, FramesOk;
    ReadyToChain(p, |nodes|);
    PartitionIgnoresTasks(p.(ready := [], chains := p.chains + [p.ready]), |nodes|, p.tasks + [b.ready]);
    NewFrame(nodes, frames, p.chains, Frame(l.readyHead, true), p.ready);
    NoLinks(nodes);
    UnionGrows(p.tasks, b.ready);
  }

  /** The drain's local variables: how many tasks have run, the node about to run or
      running, what follows it, and the last node that has run. */
  datatype Cursor = Cursor(count: nat, started: nat, completed: nat, index: int, following: int, tail: int)

  ghost predicate CursorOk(c: Cursor, batch: seq<nat>, tasks: seq<nat>, started: nat, completed: nat) {
    && c.count == |tasks| == |batch| && c.started == started && c.completed == completed
    && completed <= started <= |batch|
    && (completed < |batch| ==> c.index == batch[completed])
    && (completed == |batch| ==> c.index == NO_NODE)
    && (completed < started ==> c.following == Successor(batch, completed))
    && (0 < completed ==> c.tail == batch[completed - 1])
  }

  function Below(n: nat): seq<nat> {
    seq(n, i => i)
  }

  lemma {:induction false} BelowIsAll(n: nat)
    ensures multiset(Below(n)) == AllBelow(n)
  {
    if n > 0 {
      BelowIsAll(n - 1);
      assert Below(n) == Below(n - 1) + [n - 1];
    }
  }

  lemma FreshSlab(nodes: seq<Node>, capacity: nat)
    requires 0 < capacity && |nodes| == 2 * capacity
    requires forall i :: 0 <= i < |nodes| ==> nodes[i] == Node(None, if i + 1 < |nodes| then i + 1 else NO_NODE)
    ensures Layout(nodes, Links(0, NO_NODE, NO_NODE, NO_NODE), [], Places(Below(2 * capacity), {}, {}, [], [], [], []),
                   Initial(capacity).slab)
  {
    BelowIsAll(2 * capacity);
  }

  predicate Queues(g: Gate, postFails: bool) {
    !g.abandonDrain && g.attached && (g.drainScheduled || !postFails)
  }

  lemma PublishCases(s: State, postFails: bool)
    ensures var s', b, t := ApplyPublish(s, postFails), s.slab, s.log.tasks;
      && s'.waiters == s.waiters && s'.log.tasks == t + 1
      && s'.slab.batch == b.batch && s'.slab.started == b.started && s'.slab.completed == b.completed
      && s'.slab.pending == b.pending && s'.slab.active == b.active && s'.slab.capacity == b.capacity
      && s'.slab == (if Queues(s.gate, postFails) then b.(reserved := b.reserved - 1, ready := b.ready + [t])
                     else b.(reserved := b.reserved - 1, loose := b.loose + multiset{t}))
      && s'.gate == (if Queues(s.gate, postFails) && !s.gate.drainScheduled then
                       s.gate.(drainScheduled := true, drains := s.gate.drains + 1)
                     else s.gate)
  {
  }

  lemma CursorAdvances(c: Cursor, batch: seq<nat>, tasks: seq<nat>, started: nat, completed: nat)
    requires CursorOk(c, batch, tasks, started, completed) && completed + 1 == started
    ensures CursorOk(c.(completed := c.completed + 1, tail := c.index, index := c.following), batch, tasks, started,
              completed + 1)
  {
  }

  lemma ReadyCursor(nodes: seq<Node>, l: Links, frames: seq<Frame>, p: Places, b: Slab)
    requires Layout(nodes, l, frames, p, b) && b.ready != []
    ensures CursorOk(Cursor(|b.ready|, 0, 0, l.readyHead, NO_NODE, NO_NODE), p.ready, b.ready, 0, 0)
  {
  }

  class Dispatcher {
    const capacity: nat
    const nodes: array<Node>
    var freeHead: int
    var readyHead: int
    var readyTail: int
    var readyCount: nat
    var pendingCount: int
    var activeCount: int
    var gate: Gate
    var waiters: Waiters
    var nextTask: nat

    // the local variables of the drain in progress
    var batchHead: int
    var cursor: Cursor
    // ... and of the abandon loops in progress
    var frames: seq<Frame>

    ghost var p: Places
    ghost var s: State

    ghost predicate Valid()
      reads this, nodes
    {
      && Inv(s) && s.slab.capacity == capacity && nodes.Length == 2 * capacity
      && Layout(nodes[..], Links(freeHead, readyHead, readyTail, batchHead), frames, p, s.slab)
      && readyCount == |s.slab.ready| && pendingCount == s.slab.pending && activeCount == s.slab.active
      && gate == s.gate && waiters == s.waiters && nextTask == s.log.tasks
      && CursorOk(cursor, p.batch, s.slab.batch, s.slab.started, s.slab.completed)
    }

    constructor (capacity: nat)
      requires capacity > 0
      ensures Valid() && s == Initial(capacity) && fresh(nodes)
    {
      this.capacity := capacity;
      nodes := new Node[2 * capacity](i => Node(None, if i + 1 < 2 * capacity then i + 1 else NO_NODE));
      freeHead, readyHead, readyTail, batchHead := 0, NO_NODE, NO_NODE, NO_NODE;
      readyCount, pendingCount, activeCount := 0, 0, 0;
      gate := Initial(capacity).gate;
      waiters := Initial(capacity).waiters;
      nextTask, cursor, frames := 0, Cursor(0, 0, 0, NO_NODE, NO_NODE, NO_NODE), [];
      p := Places(Below(2 * capacity), {}, {}, [], [], [], []);
      s := Initial(capacity);
      new;
      hide Inv, Layout;
      InitialHolds(capacity);
      FreshSlab(nodes[..], capacity);
    }

    /** take_idle_callbacks_locked and notify_waiters. */
    method NotifyIdle()
      modifies this`waiters
      ensures waiters == TakeIdleCallbacks(old(waiters), pendingCount, activeCount)
    {
      if pendingCount == 0 && activeCount == 0 {
        var callbacks := waiters.idle;
        waiters := Notify(waiters.(idle := []), callbacks);
      }
    }

    /** begin_stopping_locked. */
    method BeginStoppingLocked(abandon: bool) returns (first: bool)
      modifies this`gate
      ensures gate == Stop(old(gate), abandon) && first == old(gate.accepting)
    {
      if abandon {
        gate := gate.(drainScheduled := false, abandonDrain := true);
      }
      if !gate.accepting {
        return false;
      }
      gate := gate.(accepting := false, notifying := true, stops := gate.stops + 1);
      first := true;
    }

    lemma HasFreeNode()
      requires Valid() && Admission(s).Accepted?
      ensures p.free != []
    {
      AdmissionFindsNode(s);
    }

    /** reserve. */
    method Reserve() returns (status: Status, i: int)
      requires Valid()
      modifies this
      ensures Valid() && s == ApplyReserve(old(s)) && status == Admission(old(s))
      ensures status == Accepted <==> old(gate.attached && gate.accepting && pendingCount < capacity)
      ensures status.Accepted? ==> 0 <= i && p == old(p).(free := p.free, held := old(p).held + {i as nat})
    {
      hide Inv, Layout, CursorOk;
      ReserveKeeps(s);
      AdmittedIff(s);
      i := NO_NODE;
      if !gate.attached || !gate.accepting {
        return Stopping, i;
      }
      if pendingCount == capacity {
        return QueueFull, i;
      }
      HasFreeNode();
      ReserveLayout(nodes[..], Links(freeHead, readyHead, readyTail, batchHead), frames, p, s.slab, pendingCount + 1);
      i := freeHead;
      ghost var node: nat := i;
      freeHead := nodes[i].next;
      pendingCount := pendingCount + 1;
      p := p.(free := p.free[1..], held := p.held + {node});
      s := ApplyReserve(s);
      status := Accepted;
    }

    /** publish, after the owner moved its task into the node. A task that cannot be
        queued stays with the caller, who releases its node. */
    method Publish(i: nat, postFails: bool) returns (queued: bool)
      requires Valid() && i in p.held
      modifies this, nodes
      ensures Valid() && s == ApplyPublish(old(s), postFails)
      ensures p.held == old(p).held - {i} && p.empty == old(p).empty
      ensures queued == Queues(old(gate), postFails)
    {
      hide Valid, ApplyPublish;
      HeldIsReserved(i);
      queued := Queues(gate, postFails);
      if queued {
        PublishToReady(i, postFails);
      } else {
        PublishToRelease(i, postFails);
      }
    }

    method PublishToReady(i: nat, postFails: bool)
      requires Valid() && i in p.held && Queues(gate, postFails)
      modifies this, nodes
      ensures Valid() && s == ApplyPublish(old(s), postFails)
      ensures p.held == old(p).held - {i} && p.empty == old(p).empty
    {
      hide Inv, Layout, CursorOk, ApplyPublish;
      HeldIsReserved(i);
      PublishKeeps(s, postFails);
      PublishCases(s, postFails);
      MoveIn(i);
      if !gate.drainScheduled {
        gate := gate.(drainScheduled := true, drains := gate.drains + 1);
      }
      PushReadyLocked(i);
      s := ApplyPublish(s, postFails);
    }

    method PublishToRelease(i: nat, postFails: bool)
      requires Valid() && i in p.held && !Queues(gate, postFails)
      modifies this, nodes
      ensures Valid() && s == ApplyPublish(old(s), postFails)
      ensures p.held == old(p).held - {i} && p.empty == old(p).empty
    {
      hide Inv, Layout, CursorOk, ApplyPublish;
      HeldIsReserved(i);
      PublishKeeps(s, postFails);
      PublishCases(s, postFails);
      MoveIn(i);
      Claim(i);
      s := ApplyPublish(s, postFails);
    }

    /** The owner of a reserved node moves its task in. */
    method MoveIn(i: nat)
      requires SlabIs(s.slab) && i in p.held && i < nodes.Length
      modifies nodes, this`nextTask
      ensures SlabIs(s.slab) && nodes[i].task == Some(old(nextTask)) && nextTask == old(nextTask) + 1
    {
      hide Layout;
      FillLayout(nodes[..], Links(freeHead, readyHead, readyTail, batchHead), frames, p, s.slab, i,
                 nodes[i].(task := Some(nextTask)));
      nodes[i] := nodes[i].(task := Some(nextTask));
      nextTask := nextTask + 1;
    }

    /** release_abandoned_node takes over a node with its task. */
    method Claim(i: nat)
      requires SlabIs(s.slab) && i in p.held && i < nodes.Length && nodes[i].task.Some?
      modifies this`frames, this`p
      ensures SlabIs(s.slab.(reserved := s.slab.reserved - 1, loose := s.slab.loose + multiset{nodes[i].task.value}))
      ensures p == old(p).(held := old(p).held - {i}, chains := p.chains, tasks := p.tasks)
    {
      hide Layout;
      DropLayout(nodes[..], Links(freeHead, readyHead, readyTail, batchHead), frames, p, s.slab, i,
                 nodes[i].task.value);
      frames := frames + [Frame(i, false)];
      p := p.(held := p.held - {i}, chains := p.chains + [[i]], tasks := p.tasks + [[nodes[i].task.value]]);
    }

    ghost predicate SlabIs(b: Slab)
      reads this, nodes
    {
      Layout(nodes[..], Links(freeHead, readyHead, readyTail, batchHead), frames, p, b)
    }

    /** push_ready_locked. */
    method PushReadyLocked(i: nat)
      requires SlabIs(s.slab) && i in p.held && i < nodes.Length && nodes[i].task.Some?
      modifies nodes, this`readyHead, this`readyTail, this`readyCount, this`p
      ensures SlabIs(s.slab.(reserved := s.slab.reserved - 1, ready := s.slab.ready + [old(nodes[i].task.value)]))
      ensures readyCount == old(readyCount) + 1 && p == old(p).(held := old(p).held - {i}, ready := old(p).ready + [i])
    {
      hide Layout;
      PushReadyLayout(nodes[..], Links(freeHead, readyHead, readyTail, batchHead), frames, p, s.slab, i,
                 nodes[i].task.value);
      ghost var ns := nodes[..];
      nodes[i] := nodes[i].(next := NO_NODE);
      assert nodes[..] == ns[i := ns[i].(next := NO_NODE)];
      if readyTail == NO_NODE {
        readyHead := i;
      } else {
        nodes[readyTail] := nodes[readyTail].(next := i);
        assert nodes[..] == TailLinked(ns, readyTail, i);
      }
      readyTail := i;
      readyCount := readyCount + 1;
      p := p.(held := p.held - {i}, ready := p.ready + [i]);
    }

    lemma HeldIsReserved(i: nat)
      requires Valid() && i in p.held
      ensures s.slab.reserved > 0 && i < nodes.Length && s.gate == gate
    {
      NodeIsIn(p, nodes.Length, i);
    }

    /** post_factory: the factory threw, and release_abandoned_node takes over. */
    method GiveUp(i: nat)
      requires Valid() && i in p.held
      modifies this
      ensures Valid() && s == ApplyGiveUp(old(s)) && p.held == old(p).held - {i} && p.empty == old(p).empty + {i}
    {
      hide Inv, Layout, CursorOk;
      HeldIsReserved(i);
      GiveUpKeeps(s);
      GiveUpLayout(nodes[..], Links(freeHead, readyHead, readyTail, batchHead), frames, p, s.slab, i);
      p := p.(held := p.held - {i}, empty := p.empty + {i});
      s := ApplyGiveUp(s);
    }

    /** release_abandoned_node of a node that never had a task. */
    method ReleaseEmpty(i: nat)
      requires Valid() && i in p.empty
      modifies this, nodes
      ensures Valid() && s == ApplyRelease(old(s), None)
      ensures p.held == old(p).held && p.empty == old(p).empty - {i}
    {
      hide Inv, Layout, CursorOk, TakeIdleCallbacks;
      EmptyIsLoose(i);
      ReleaseKeeps(s, None);
      ReleaseEmptyLayout(nodes[..], Links(freeHead, readyHead, readyTail, batchHead), frames, p, s.slab, i,
          pendingCount - 1);
      nodes[i] := Node(None, freeHead);
      freeHead := i;
      p := p.(empty := p.empty - {i}, free := [i] + p.free);
      CountRelease();
      s := ApplyRelease(s, None);
    }

    /** The end of release_abandoned_node: count, take the idle callbacks, wake a
        thread waiting for the last reservation. */
    method CountRelease()
      modifies this`pendingCount, this`waiters
      ensures pendingCount == old(pendingCount) - 1
      ensures waiters ==
              TakeIdleCallbacks(old(waiters).(reservations := old(waiters).reservations && pendingCount != 0),
                                pendingCount, activeCount)
    {
      pendingCount := pendingCount - 1;
      if pendingCount == 0 {
        waiters := waiters.(reservations := false);
      }
      NotifyIdle();
    }

    lemma EmptyIsLoose(i: nat)
      requires Valid() && i in p.empty
      ensures s.slab.looseEmpty > 0 && i < nodes.Length
    {
      NodeIsIn(p, nodes.Length, i);
    }

    /** One turn of an abandon loop: release_abandoned_node of its next node. */
    method ReleaseNext(k: nat) returns (ghost t: nat)
      requires Valid() && k < |p.chains| && p.chains[k] != []
      modifies this, nodes
      ensures Valid() && t in old(s).slab.loose && s == ApplyRelease(old(s), Some(t))
      ensures p.held == old(p).held && p.empty == old(p).empty
      ensures p.chains == old(p).chains[k := old(p).chains[k][1..]]
    {
      hide Inv, Layout, CursorOk, TakeIdleCallbacks;
      t := ReturnNode(k);
      ReleaseKeeps(s, Some(t));
      CountRelease();
      s := ApplyRelease(s, Some(t));
    }

    method ReturnNode(k: nat) returns (ghost t: nat)
      requires SlabIs(s.slab) && k < |p.chains| && p.chains[k] != []
      modifies nodes, this`freeHead, this`frames, this`p
      ensures t in s.slab.loose
      ensures SlabIs(s.slab.(free := s.slab.free + 1, pending := s.slab.pending - 1,
                             loose := s.slab.loose - multiset{t}))
      ensures p.held == old(p).held && p.empty == old(p).empty && p.batch == old(p).batch
      ensures p.chains == old(p).chains[k := old(p).chains[k][1..]]
    {
      hide Layout;
      ghost var ns := nodes[..];
      ReleaseLayout(ns, Links(freeHead, readyHead, readyTail, batchHead), frames, p, s.slab, k, s.slab.pending - 1);
      t := p.tasks[k][0];
      var i := frames[k].head;
      var following := if frames[k].loop then nodes[i].next else NO_NODE;
      nodes[i] := Node(None, freeHead);
      assert nodes[..] == ns[i := Node(None, freeHead)];
      freeHead := i;
      frames := frames[k := Frame(following, frames[k].loop)];
      p := p.(chains := p.chains[k := p.chains[k][1..]], tasks := p.tasks[k := p.tasks[k][1..]],
          free := [i as nat] + p.free);
    }

    /** abandon_queued takes the whole ready list for its loop. */
    method SpliceReady()
      requires Valid() && gate.spliceOwed > 0
      modifies this
      ensures Valid() && s == ApplySplice(old(s)) && p.held == old(p).held && p.empty == old(p).empty
    {
      hide Inv, Layout, CursorOk;
      SpliceKeeps(s);
      TakeReady();
      gate := gate.(spliceOwed := gate.spliceOwed - 1);
      s := ApplySplice(s);
    }

    method TakeReady()
      requires SlabIs(s.slab)
      modifies this`frames, this`readyHead, this`readyTail, this`readyCount, this`p
      ensures SlabIs(s.slab.(ready := [], loose := s.slab.loose + multiset(s.slab.ready))) && readyCount == 0
      ensures p.held == old(p).held && p.empty == old(p).empty && p.batch == old(p).batch
    {
      hide Layout;
      SpliceLayout(nodes[..], Links(freeHead, readyHead, readyTail, batchHead), frames, p, s.slab);
      frames := frames + [Frame(readyHead, true)];
      readyHead, readyTail, readyCount := NO_NODE, NO_NODE, 0;
      p := p.(ready := [], chains := p.chains + [p.ready], tasks := p.tasks + [s.slab.ready]);
    }

    /** The first section of drain: the ready list becomes the batch. */
    method BeginDrain()
      requires Valid() && Enabled(s, Step.BeginDrain)
      modifies this
      ensures Valid() && s == ApplyBeginDrain(old(s)) && p.held == old(p).held && p.empty == old(p).empty
    {
      hide Inv, Layout, CursorOk, TakeIdleCallbacks;
      BeginDrainKeeps(s);
      gate := gate.(drains := gate.drains - 1);
      if gate.abandonDrain || readyCount == 0 {
        if gate.abandonDrain {
          gate := gate.(drainScheduled := false, spliceOwed := gate.spliceOwed + 1);
        } else {
          gate := gate.(drainScheduled := false);
        }
        NotifyIdle();
      } else {
        TakeBatch();
      }
      s := ApplyBeginDrain(s);
    }

    method TakeBatch()
      requires SlabIs(s.slab) && s.slab.batch == [] && s.slab.ready != [] && readyCount == |s.slab.ready|
      modifies this`batchHead, this`cursor, this`pendingCount, this`activeCount, this`readyHead, this`readyTail,
               this`readyCount, this`p
      ensures SlabIs(s.slab.(batch := s.slab.ready, ready := [], started := 0, completed := 0,
                             pending := s.slab.pending - |s.slab.ready|, active := s.slab.active + |s.slab.ready|))
      ensures CursorOk(cursor, p.batch, s.slab.ready, 0, 0) && readyCount == 0
      ensures pendingCount == old(pendingCount) - |s.slab.ready| && activeCount == old(activeCount) + |s.slab.ready|
      ensures p.held == old(p).held && p.empty == old(p).empty
    {
      hide Layout;
      ghost var n := |s.slab.ready|;
      ReadyCursor(nodes[..], Links(freeHead, readyHead, readyTail, batchHead), frames, p, s.slab);
      BeginBatchLayout(nodes[..], Links(freeHead, readyHead, readyTail, batchHead), frames, p, s.slab,
                       s.slab.pending - n, s.slab.active + n);
      batchHead := readyHead;
      cursor := Cursor(readyCount, 0, 0, readyHead, NO_NODE, NO_NODE);
      pendingCount := pendingCount - readyCount;
      activeCount := activeCount + readyCount;
      readyHead, readyTail, readyCount := NO_NODE, NO_NODE, 0;
      p := p.(batch := p.ready, ready := []);
    }

    /** drain calls the next task of its batch, having read what follows it. */
    method StartTask()
      requires Valid() && Enabled(s, Step.StartTask)
      modifies this
      ensures Valid() && s == ApplyStartTask(old(s)) && p == old(p)
    {
      hide Inv, Layout;
      StartTaskKeeps(s);
      CursorNode();
      SameSlab(nodes[..], Links(freeHead, readyHead, readyTail, batchHead), frames, p, s.slab, ApplyStartTask(s).slab);
      cursor := cursor.(started := cursor.started + 1, following := nodes[cursor.index].next);
      s := ApplyStartTask(s);
    }

    lemma CursorNode()
      requires Valid() && s.slab.completed < |s.slab.batch|
      ensures cursor.completed == s.slab.completed < |p.batch| == |s.slab.batch| == cursor.count
      ensures cursor.index == p.batch[cursor.completed]
      ensures 0 <= cursor.index < nodes.Length && nodes[cursor.index].next == Successor(p.batch, cursor.completed)
    {
    }

    /** The task returned. */
    method FinishTask()
      requires Valid() && Enabled(s, Step.FinishTask(false))
      modifies this, nodes
      ensures Valid() && s == ApplyFinishTask(old(s), false) && p == old(p)
    {
      hide Inv, Layout, CursorOk;
      FinishTaskKeeps(s, false);
      NextRuns();
      CursorAdvances(cursor, p.batch, s.slab.batch, s.slab.started, s.slab.completed);
      DropTask();
      cursor := cursor.(completed := cursor.completed + 1, tail := cursor.index, index := cursor.following);
      s := ApplyFinishTask(s, false);
    }

    /** node.task_ = nullptr, after the task returned or threw. */
    method DropTask()
      requires Valid() && s.slab.completed < |s.slab.batch|
      modifies nodes
      ensures SlabIs(s.slab.(completed := s.slab.completed + 1))
    {
      hide Inv, Layout;
      CursorNode();
      var i: nat := cursor.index;
      ghost var ns := nodes[..];
      FinishLayout(ns, Links(freeHead, readyHead, readyTail, batchHead), frames, p, s.slab);
      nodes[i] := nodes[i].(task := None);
      assert nodes[..] == ns[i := ns[i].(task := None)];
    }

    /** The task threw: the batch through its node returns to the free list, the rest
        is pending again, and admission closes in the same section. */
    method FailTask() returns (first: bool)
      requires Valid() && Enabled(s, Step.FinishTask(true))
      modifies this, nodes
      ensures Valid() && s == ApplyFinishTask(old(s), true) && first == old(gate.accepting)
      ensures p.held == old(p).held && p.empty == old(p).empty
    {
      hide Inv, Layout, CursorOk;
      FinishTaskKeeps(s, true);
      DropFailedTask();
      first := BeginStoppingLocked(true);
      gate := gate.(spliceOwed := gate.spliceOwed + 1, idleOwed := gate.idleOwed + 1, failing := true);
      s := ApplyFinishTask(s, true);
    }

    method DropFailedTask()
      requires Valid() && Enabled(s, Step.FinishTask(true))
      modifies nodes, this`freeHead, this`batchHead, this`cursor, this`frames, this`pendingCount,
               this`activeCount, this`p
      ensures pendingCount == ApplyFinishTask(s, true).slab.pending
              && activeCount == ApplyFinishTask(s, true).slab.active
      ensures SlabIs(ApplyFinishTask(s, true).slab) && CursorOk(cursor, p.batch, [], 0, 0)
      ensures p.held == old(p).held && p.empty == old(p).empty
    {
      hide Inv, Layout, CursorOk;
      CursorNode();
      NextRuns();
      DropTask();
      ReturnFailedBatch();
    }

    method ReturnFailedBatch()
      requires s.slab.completed < |s.slab.batch| == |p.batch| && SlabIs(s.slab.(completed := s.slab.completed + 1))
      requires cursor.count == |s.slab.batch| && cursor.completed == s.slab.completed
      requires cursor.index == p.batch[cursor.completed] && 0 <= cursor.index < nodes.Length
      modifies nodes, this`freeHead, this`batchHead, this`cursor, this`frames, this`pendingCount,
               this`activeCount, this`p
      ensures pendingCount == old(pendingCount) + |s.slab.batch| - s.slab.completed - 1
      ensures activeCount == old(activeCount) - |s.slab.batch|
      ensures var b, done := s.slab, s.slab.completed + 1;
        SlabIs(b.(free := b.free + done, loose := b.loose + multiset(b.batch[done..]), batch := [], started := 0,
            completed := 0,
                  pending := b.pending + |b.batch| - done, active := b.active - |b.batch|))
      ensures CursorOk(cursor, p.batch, [], 0, 0) && p.held == old(p).held && p.empty == old(p).empty
    {
      hide Layout;
      ghost var done, ns, i := s.slab.completed + 1, nodes[..], cursor.index;
      FailLayout(ns, Links(freeHead, readyHead, readyTail, batchHead), frames, p, s.slab.(completed := done), done,
                 s.slab.pending + |s.slab.batch| - done, s.slab.active - |s.slab.batch|);
      activeCount := activeCount - cursor.count;
      pendingCount := pendingCount + cursor.count - cursor.completed - 1;
      frames := frames + [Frame(nodes[cursor.index].next, true)];
      nodes[cursor.index] := nodes[cursor.index].(next := freeHead);
      assert nodes[..] == ns[i := ns[i].(next := freeHead)];
      freeHead, batchHead := batchHead, NO_NODE;
      cursor := Cursor(0, 0, 0, NO_NODE, NO_NODE, NO_NODE);
      p := p.(batch := [], free := p.batch[..done] + p.free, chains := p.chains + [p.batch[done..]],
              tasks := p.tasks + [s.slab.batch[done..]]);
    }

    lemma NextRuns()
      requires Valid()
      ensures s.slab.started <= |s.slab.batch| && s.slab.completed <= s.slab.started <= s.slab.completed + 1
    {
    }

    /** The last section of a batch that ran through: it returns to the free list, and
        what was published meanwhile gets a drain of its own. Posting that drain may
        fail, which escapes as a worker failure. */
    method EndBatch(postFails: bool) returns (threw: bool)
      requires Valid() && Enabled(s, Step.EndBatch(postFails))
      modifies this, nodes
      ensures Valid() && s == ApplyEndBatch(old(s), postFails) && p.held == old(p).held && p.empty == old(p).empty
    {
      hide Inv, Layout, CursorOk, TakeIdleCallbacks;
      EndBatchKeeps(s, postFails);
      ReturnBatch();
      threw := Reschedule(postFails);
      if !threw {
        NotifyIdle();
      }
      s := ApplyEndBatch(s, postFails);
    }

    method Reschedule(postFails: bool) returns (threw: bool)
      modifies this`gate
      ensures gate == EndGate(old(gate), readyCount != 0, postFails)
              && threw == EndThrows(old(gate), readyCount != 0, postFails)
    {
      threw := false;
      gate := gate.(drainScheduled := false);
      if gate.abandonDrain {
        gate := gate.(spliceOwed := gate.spliceOwed + 1);
      } else if readyCount != 0 {
        if postFails {
          threw := true;
          gate := gate.(failing := true);
        } else {
          gate := gate.(drainScheduled := true, drains := gate.drains + 1);
        }
      }
    }

    method ReturnBatch()
      requires Valid() && Enabled(s, Step.EndBatch(false))
      modifies nodes, this`freeHead, this`batchHead, this`cursor, this`activeCount, this`p
      ensures SlabIs(s.slab.(free := s.slab.free + |s.slab.batch|, batch := [], started := 0, completed := 0,
                             active := s.slab.active - |s.slab.batch|))
      ensures activeCount == s.slab.active - |s.slab.batch| && CursorOk(cursor, p.batch, [], 0, 0)
      ensures p.held == old(p).held && p.empty == old(p).empty
    {
      hide Inv, Layout;
      activeCount := activeCount - cursor.count;
      EndLayout(nodes[..], Links(freeHead, readyHead, readyTail, batchHead), frames, p, s.slab, activeCount);
      nodes[cursor.tail] := nodes[cursor.tail].(next := freeHead);
      freeHead, batchHead := batchHead, NO_NODE;
      cursor := Cursor(0, 0, 0, NO_NODE, NO_NODE, NO_NODE);
      p := p.(batch := [], free := p.batch + p.free);
    }

    /** close (without abandoning) or the worker's failure handling (with). */
    method BeginStopping(abandon: bool) returns (first: bool)
      requires Valid()
      modifies this
      ensures Valid() && s == ApplyBeginStop(old(s), abandon) && first == old(gate.accepting) && p == old(p)
    {
      hide Inv, Layout, CursorOk;
      BeginStopKeeps(s, abandon);
      first := BeginStoppingLocked(abandon);
      if abandon {
        gate := gate.(spliceOwed := gate.spliceOwed + 1, failing := false);
      }
      s := ApplyBeginStop(s, abandon);
    }

    /** The end of notify_stopping, reached only by the caller that opened the batch. */
    method FinishNotifying() returns (callbacks: nat)
      requires Valid() && gate.notifying
      modifies this
      ensures Valid() && s == ApplyFinishNotify(old(s)) && p == old(p)
      ensures callbacks == old(waiters.notify)
    {
      hide Inv, Layout, CursorOk;
      RestKeeps(s, Step.FinishNotify);
      callbacks := waiters.notify;
      gate := gate.(notifying := false);
      waiters := waiters.(notify := 0);
      s := ApplyFinishNotify(s);
    }

    /** The last section of drain's failure path. */
    method TakeIdle()
      requires Valid() && gate.idleOwed > 0
      modifies this
      ensures Valid() && s == ApplyTakeIdle(old(s)) && p == old(p)
    {
      hide Inv, Layout, CursorOk, TakeIdleCallbacks;
      TakeIdleKeeps(s);
      gate := gate.(idleOwed := gate.idleOwed - 1);
      NotifyIdle();
      s := ApplyTakeIdle(s);
    }

    method DetachContext()
      requires Valid()
      modifies this
      ensures Valid() && s == ApplyDetach(old(s)) && p == old(p)
    {
      hide Inv, Layout, CursorOk;
      DetachKeeps(s);
      if gate.attached {
        gate := gate.(accepting := false, attached := false, abandonDrain := true, spliceOwed := gate.spliceOwed + 1);
      }
      s := ApplyDetach(s);
    }

    /** when_idle: queued while work is pending or active, refused once detached. */
    method WhenIdle() returns (called: bool, refused: bool)
      requires Valid()
      modifies this
      ensures Valid() && s == ApplyWhenIdle(old(s)) && p == old(p)
      ensures called ==> pendingCount == 0 && activeCount == 0
    {
      hide Inv, Layout, CursorOk;
      WhenIdleKeeps(s);
      var w := waiters.count;
      called, refused := false, !gate.attached;
      waiters := waiters.(count := w + 1);
      if refused {
        waiters := waiters.(refused := waiters.refused + [w]);
      } else if pendingCount != 0 || activeCount != 0 {
        waiters := waiters.(idle := waiters.idle + [w]);
      } else {
        called := true;
        waiters := Notify(waiters, [w]);
      }
      s := ApplyWhenIdle(s);
    }

    /** when_shutdown_notifications_complete. */
    method WhenNotified() returns (called: bool)
      requires Valid()
      modifies this
      ensures Valid() && s == ApplyWhenNotified(old(s)) && p == old(p) && called == !gate.notifying
    {
      hide Inv, Layout, CursorOk;
      RestKeeps(s, Step.WhenNotified);
      called := !gate.notifying;
      if !called {
        waiters := waiters.(notify := waiters.notify + 1);
      }
      s := ApplyWhenNotified(s);
    }
  }
}
