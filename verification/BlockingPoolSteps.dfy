/** The bounded blocking pool over any interleaving of submitters, pool threads, stoppers and
    joiners (ruvia-core/src/blocking_pool.cpp). Every step is one critical section, one
    notification of the condition variable, or one call made between two sections.
    Submissions are numbered in arrival order. */
module BlockingPoolSteps {
  import opened Tally
  import opened Wrappers

  /** Who holds how many of the nodes, and the tasks on their way. */
  datatype Store = Store(
    capacity: nat, threads: nat,
    free: nat, reserved: nat, queued: nat,
    ring: seq<nat>,
    undecided: multiset<nat>,       // reserved, and not counted anywhere yet
    withdrawing: multiset<nat>,     // reserved, but the pool stopped meanwhile
    running: multiset<nat>,
    dropping: Option<nat>)          // the task a stop is destroying

  /** The counters as the submissions they count, and the order of publication and of starting. */
  datatype Ledger = Ledger(
    submitted: nat, completed: multiset<nat>, rejected: multiset<nat>, discarded: multiset<nat>,
    published: seq<nat>, started: seq<nat>)

  /** The pool threads that run no task, and the notifications still to be made. */
  datatype Crew = Crew(asleep: nat, woken: nat, looking: nat, exited: nat, ones: nat, alls: nat)

  datatype Joiner = Entering | WaitsForJoiner | JoinsThreads | Leaving | WaitsForRest | Returned

  datatype Gate = Gate(
    stopping: bool, toDrop: nat, drainer: Option<nat>, joining: bool, joined: bool, joiners: map<nat, Joiner>)

  datatype State = State(store: Store, ledger: Ledger, crew: Crew, gate: Gate)

  datatype Step =
    | Submit                        // the first section of submit()
    | Publish(id: nat)              // the second
    | Withdraw(id: nat)             // the third, of a submission that met a stop
    | NotifyOne(joiner: Option<nat>)
    | NotifyAll
    | Spurious                      // a pool thread wakes unasked
    | JoinerSpurious(thread: nat)   // a joiner does
    | Check(woken: bool)            // a pool thread looks for work
    | Finish(id: nat)
    | Stop(thread: nat)
    | TakeDropped
    | ReleaseDropped
    | EndDrain
    | Join(thread: nat)             // join() after its call of stop()
    | EnterJoin(thread: nat)
    | ThreadsJoined(thread: nat)
    | LeaveJoin(thread: nat)

  predicate At(g: Gate, thread: nat, phase: Joiner) {
    thread in g.joiners && g.joiners[thread] == phase
  }

  predicate Waits(g: Gate, thread: nat) {
    At(g, thread, WaitsForJoiner) || At(g, thread, WaitsForRest)
  }

  ghost predicate Enabled(s: State, step: Step) {
    match step
    case Submit => true
    case Publish(id) => id in s.store.undecided
    case Withdraw(id) => id in s.store.withdrawing
    case NotifyOne(joiner) => s.crew.ones > 0 && (joiner.Some? ==> Waits(s.gate, joiner.value))
    case NotifyAll => s.crew.alls > 0
    case Spurious => s.crew.asleep > 0
    case JoinerSpurious(thread) => Waits(s.gate, thread)
    case Check(woken) => if woken then s.crew.woken > 0 else s.crew.looking > 0
    case Finish(id) => id in s.store.running
    case Stop(thread) => true
    case TakeDropped => s.gate.toDrop > 0 && s.store.dropping == None
    case ReleaseDropped => s.store.dropping.Some?
    case EndDrain => s.gate.drainer.Some? && s.gate.toDrop == 0 && s.store.dropping == None
    case Join(thread) => s.gate.stopping && thread !in s.gate.joiners
    case EnterJoin(thread) => At(s.gate, thread, Entering)
    case ThreadsJoined(thread) => At(s.gate, thread, JoinsThreads) && s.crew.exited == s.store.threads
    case LeaveJoin(thread) => At(s.gate, thread, Leaving)
  }

  // ----- submit()

  function ApplySubmit(s: State): State {
    var b, l := s.store, s.ledger.(submitted := s.ledger.submitted + 1);
    var id := multiset{s.ledger.submitted};
    if s.gate.stopping then s.(ledger := l.(discarded := l.discarded + id))
    else if b.queued + b.reserved >= b.capacity then s.(ledger := l.(rejected := l.rejected + id))
    else s.(ledger := l, store := b.(free := Less(b.free), reserved := b.reserved + 1, undecided := b.undecided + id))
  }

  function ApplyPublish(s: State, id: nat): State {
    var b, l, one := s.store, s.ledger, multiset{id};
    if s.gate.stopping then
      s.(store := b.(undecided := b.undecided - one, withdrawing := b.withdrawing + one),
         ledger := l.(discarded := l.discarded + one))
    else
      s.(store := b.(undecided := b.undecided - one, reserved := Less(b.reserved), ring := b.ring + [id],
                     queued := b.queued + 1),
         ledger := l.(published := l.published + [id]),
         crew := s.crew.(ones := s.crew.ones + 1))
  }

  function ApplyWithdraw(s: State, id: nat): State {
    var b := s.store;
    var left := Less(b.reserved);
    s.(store := b.(withdrawing := b.withdrawing - multiset{id}, free := b.free + 1, reserved := left),
       crew := if left == 0 then s.crew.(alls := s.crew.alls + 1) else s.crew)
  }

  // ----- the condition variable

  function Woken(phase: Joiner): Joiner {
    match phase
    case WaitsForJoiner => Entering
    case WaitsForRest => Leaving
    case _ => phase
  }

  /** One joiner is woken: it tests its condition again. */
  function Wake(g: Gate, thread: nat): Gate {
    if thread in g.joiners then g.(joiners := g.joiners[thread := Woken(g.joiners[thread])]) else g
  }

  function ApplyNotifyOne(s: State, joiner: Option<nat>): State {
    var c := s.crew.(ones := Less(s.crew.ones));
    if joiner.Some? then s.(crew := c, gate := Wake(s.gate, joiner.value))
    else if c.asleep > 0 then s.(crew := c.(asleep := c.asleep - 1, woken := c.woken + 1))
    else s.(crew := c)
  }

  function ApplyNotifyAll(s: State): State {
    var c := s.crew;
    s.(crew := c.(alls := Less(c.alls), asleep := 0, woken := c.woken + c.asleep),
       gate := s.gate.(joiners := map t | t in s.gate.joiners :: Woken(s.gate.joiners[t])))
  }

  // ----- the pool threads

  function ApplyCheck(s: State, woken: bool): State {
    var b := s.store;
    var c := if woken then s.crew.(woken := Less(s.crew.woken)) else s.crew.(looking := Less(s.crew.looking));
    if s.gate.stopping then s.(crew := c.(exited := c.exited + 1))
    else if b.queued == 0 || b.ring == [] then s.(crew := c.(asleep := c.asleep + 1))
    else
      s.(crew := c,
         store := b.(ring := b.ring[1..], queued := b.queued - 1, running := b.running + multiset{b.ring[0]}),
         ledger := s.ledger.(started := s.ledger.started + [b.ring[0]]))
  }

  function ApplyFinish(s: State, id: nat): State {
    var b := s.store;
    s.(store := b.(running := b.running - multiset{id}, free := b.free + 1),
       ledger := s.ledger.(completed := s.ledger.completed + multiset{id}),
       crew := s.crew.(looking := s.crew.looking + 1))
  }

  // ----- stop() and join()

  function ApplyStop(s: State, thread: nat): State {
    if s.gate.stopping then s
    else
      s.(gate := s.gate.(stopping := true, toDrop := s.store.queued,
                         drainer := if s.store.queued > 0 then Some(thread) else None),
         ledger := s.ledger.(discarded := s.ledger.discarded + multiset(s.store.ring)),
         store := s.store.(queued := 0),
         crew := s.crew.(alls := s.crew.alls + 1))
  }

  function ApplyTakeDropped(s: State): State {
    if s.store.ring == [] then s
    else s.(store := s.store.(ring := s.store.ring[1..], dropping := Some(s.store.ring[0])),
            gate := s.gate.(toDrop := Less(s.gate.toDrop)))
  }

  function ApplyEnterJoin(g: Gate, thread: nat): Gate {
    if g.joining then g.(joiners := g.joiners[thread := WaitsForJoiner])
    else if !g.joined then g.(joining := true, joiners := g.joiners[thread := JoinsThreads])
    else g.(joiners := g.joiners[thread := Leaving])
  }

  predicate MayLeave(s: State, thread: nat) {
    (s.gate.drainer == None || s.gate.drainer == Some(thread)) && s.store.reserved == 0
  }

  function Apply(s: State, step: Step): State {
    match step
    case Submit => ApplySubmit(s)
    case Publish(id) => ApplyPublish(s, id)
    case Withdraw(id) => ApplyWithdraw(s, id)
    case NotifyOne(joiner) => ApplyNotifyOne(s, joiner)
    case NotifyAll => ApplyNotifyAll(s)
    case Spurious => s.(crew := s.crew.(asleep := Less(s.crew.asleep), woken := s.crew.woken + 1))
    case JoinerSpurious(thread) => s.(gate := Wake(s.gate, thread))
    case Check(woken) => ApplyCheck(s, woken)
    case Finish(id) => ApplyFinish(s, id)
    case Stop(thread) => ApplyStop(s, thread)
    case TakeDropped => ApplyTakeDropped(s)
    case ReleaseDropped => s.(store := s.store.(dropping := None, free := s.store.free + 1))
    case EndDrain => s.(gate := s.gate.(drainer := None), crew := s.crew.(alls := s.crew.alls + 1))
    case Join(thread) => s.(gate := s.gate.(joiners := s.gate.joiners[thread := Entering]))
    case EnterJoin(thread) => s.(gate := ApplyEnterJoin(s.gate, thread))
    case ThreadsJoined(thread) =>
      s.(gate := s.gate.(joining := false, joined := true, joiners := s.gate.joiners[thread := Leaving]),
         crew := s.crew.(alls := s.crew.alls + 1))
    case LeaveJoin(thread) =>
      s.(gate := s.gate.(joiners := s.gate.joiners[thread := if MayLeave(s, thread) then Returned else WaitsForRest]))
  }

  function Initial(capacity: nat, threads: nat): State {
    State(Store(capacity, threads, capacity + threads, 0, 0, [], multiset{}, multiset{}, multiset{}, None),
          Ledger(0, multiset{}, multiset{}, multiset{}, [], []),
          Crew(0, 0, threads, 0, 0, 0), Gate(false, 0, None, false, false, map[]))
  }

  // ----- what every run keeps

  /** Each node is in one place. */
  ghost predicate StoreOk(b: Store, g: Gate) {
    && b.reserved == |b.undecided| + |b.withdrawing|
    && b.free + b.reserved + |b.ring| + |b.running| + (if b.dropping.Some? then 1 else 0) == b.capacity + b.threads
    && |b.running| <= b.threads
    && |b.ring| == (if g.stopping then g.toDrop else b.queued)
    && (!g.stopping ==> b.queued + b.reserved <= b.capacity && b.dropping == None && b.withdrawing == multiset{})
    && (g.stopping ==> b.queued == 0)
  }

  ghost predicate GateOk(b: Store, g: Gate) {
    && (!g.stopping ==> g.toDrop == 0 && g.drainer == None && g.joiners == map[] && !g.joining && !g.joined)
    && (g.toDrop > 0 || b.dropping.Some? ==> g.drainer.Some?)
    && (g.joining ==> !g.joined)
  }

  /** The tasks a stop dropped are counted as discarded already. */
  ghost function Live(b: Store, g: Gate): multiset<nat> {
    if g.stopping then multiset{} else multiset(b.ring)
  }

  /** Each submission is counted once. */
  ghost predicate LedgerOk(l: Ledger, b: Store, g: Gate) {
    && b.undecided + Live(b, g) + b.running + l.completed + l.rejected + l.discarded == AllBelow(l.submitted)
    && b.withdrawing <= l.discarded
  }

  /** Tasks start in the order of publication. */
  ghost predicate OrderOk(l: Ledger, b: Store, g: Gate) {
    && l.started <= l.published
    && (!g.stopping ==> l.published == l.started + b.ring)
    && multiset(l.started) == b.running + l.completed
  }

  /** While tasks wait and a pool thread sleeps, enough threads are awake or about to be woken. */
  ghost predicate CrewOk(c: Crew, b: Store, g: Gate) {
    && c.asleep + c.woken + c.looking + |b.running| + c.exited == b.threads
    && (c.asleep > 0 && !g.stopping ==> b.queued <= c.ones + c.woken)
    && (c.asleep > 0 && g.stopping ==> c.alls > 0)
    && (c.exited > 0 ==> g.stopping)
    && (g.joined ==> c.exited == b.threads)
  }

  ghost predicate JoinersOk(c: Crew, b: Store, g: Gate) {
    forall t :: t in g.joiners ==>
      match g.joiners[t]
      case Entering => true
      case WaitsForJoiner => g.joining || c.alls > 0
      case JoinsThreads => g.joining
      case Leaving => g.joined
      case WaitsForRest => g.joined && (b.reserved > 0 || (g.drainer.Some? && g.drainer != Some(t)) || c.alls > 0)
      case Returned => g.joined && b.reserved == 0 && (g.drainer == None || g.drainer == Some(t))
  }

  ghost predicate OneJoiner(g: Gate) {
    forall t, u :: t in g.joiners && u in g.joiners && g.joiners[t] == JoinsThreads && g.joiners[u] == JoinsThreads ==>
        t == u
  }

  ghost predicate Inv(s: State) {
    && StoreOk(s.store, s.gate) && GateOk(s.store, s.gate)
    && LedgerOk(s.ledger, s.store, s.gate) && OrderOk(s.ledger, s.store, s.gate)
    && CrewOk(s.crew, s.store, s.gate) && JoinersOk(s.crew, s.store, s.gate) && OneJoiner(s.gate)
  }

  // ----- step by step: first the ledger, as multisets

  /** Six parts, one of which gains what another loses. */
  ghost function Sum(u: multiset<nat>, l: multiset<nat>, r: multiset<nat>,
                     c: multiset<nat>, j: multiset<nat>, d: multiset<nat>): multiset<nat> {
    u + l + r + c + j + d
  }

  lemma SumGrows(u: multiset<nat>, l: multiset<nat>, r: multiset<nat>, c: multiset<nat>, j: multiset<nat>,
                 d: multiset<nat>, x: multiset<nat>)
    ensures Sum(u + x, l, r, c, j, d) == Sum(u, l, r, c, j, d) + x
    ensures Sum(u, l + x, r, c, j, d) == Sum(u, l, r, c, j, d) + x
    ensures Sum(u, l, r + x, c, j, d) == Sum(u, l, r, c, j, d) + x
    ensures Sum(u, l, r, c + x, j, d) == Sum(u, l, r, c, j, d) + x
    ensures Sum(u, l, r, c, j + x, d) == Sum(u, l, r, c, j, d) + x
    ensures Sum(u, l, r, c, j, d + x) == Sum(u, l, r, c, j, d) + x
  {
  }

  lemma SplitOff(m: multiset<nat>, x: nat)
    requires x in m
    ensures m == (m - multiset{x}) + multiset{x} && |m| == |m - multiset{x}| + 1
  {
  }

  lemma SubmitLedger(s: State)
    requires LedgerOk(s.ledger, s.store, s.gate)
    ensures var t := ApplySubmit(s); LedgerOk(t.ledger, t.store, t.gate)
  {
    hide Sum, Live, AllBelow;
    var b, l := s.store, s.ledger;
    var v, one := Live(b, s.gate), multiset{l.submitted};
    SumGrows(b.undecided, v, b.running, l.completed, l.rejected, l.discarded, one);
    SumIs(b.undecided, v, b.running, l.completed, l.rejected, l.discarded);
    SumIs(b.undecided + one, v, b.running, l.completed, l.rejected, l.discarded);
    SumIs(b.undecided, v, b.running, l.completed, l.rejected + one, l.discarded);
    SumIs(b.undecided, v, b.running, l.completed, l.rejected, l.discarded + one);
    NextNumber(l.submitted);
    LiveIsRing(b, ApplySubmit(s).store, s.gate);
  }

  lemma NextNumber(n: nat)
    ensures AllBelow(n + 1) == AllBelow(n) + multiset{n}
  {
  }

  lemma LiveIsRing(b: Store, c: Store, g: Gate)
    requires b.ring == c.ring
    ensures Live(b, g) == Live(c, g)
  {
  }

  lemma SumIs(u: multiset<nat>, l: multiset<nat>, r: multiset<nat>, c: multiset<nat>, j: multiset<nat>,
              d: multiset<nat>)
    ensures Sum(u, l, r, c, j, d) == u + l + r + c + j + d
  {
  }

  lemma PublishLedger(s: State, id: nat)
    requires LedgerOk(s.ledger, s.store, s.gate) && id in s.store.undecided
    ensures var t := ApplyPublish(s, id); LedgerOk(t.ledger, t.store, t.gate)
  {
    hide Sum;
    var b, l, one := s.store, s.ledger, multiset{id};
    var v := Live(b, s.gate);
    SplitOff(b.undecided, id);
    SumGrows(b.undecided - one, v, b.running, l.completed, l.rejected, l.discarded, one);
    SumIs(b.undecided, v, b.running, l.completed, l.rejected, l.discarded);
    var t := ApplyPublish(s, id);
    assert multiset(b.ring + [id]) == multiset(b.ring) + one;
    SumIs(t.store.undecided, Live(t.store, t.gate), t.store.running, t.ledger.completed, t.ledger.rejected,
        t.ledger.discarded);
  }

  lemma CheckLedger(s: State, woken: bool)
    requires LedgerOk(s.ledger, s.store, s.gate)
    ensures var t := ApplyCheck(s, woken); LedgerOk(t.ledger, t.store, t.gate)
  {
    hide Sum;
    var b, l := s.store, s.ledger;
    if b.ring != [] && !s.gate.stopping {
      var one := multiset{b.ring[0]};
      SplitFirst(b.ring);
      assert multiset(b.ring) == multiset(b.ring[1..]) + one;
      SumGrows(b.undecided, multiset(b.ring[1..]), b.running, l.completed, l.rejected, l.discarded, one);
      SumIs(b.undecided, multiset(b.ring), b.running, l.completed, l.rejected, l.discarded);
      SumIs(b.undecided, multiset(b.ring[1..]), b.running + one, l.completed, l.rejected, l.discarded);
    }
  }

  lemma FinishLedger(s: State, id: nat)
    requires LedgerOk(s.ledger, s.store, s.gate) && id in s.store.running
    ensures var t := ApplyFinish(s, id); LedgerOk(t.ledger, t.store, t.gate)
  {
    hide Sum;
    var b, l, one := s.store, s.ledger, multiset{id};
    var v := Live(b, s.gate);
    SplitOff(b.running, id);
    SumGrows(b.undecided, v, b.running - one, l.completed, l.rejected, l.discarded, one);
    SumIs(b.undecided, v, b.running, l.completed, l.rejected, l.discarded);
    SumIs(b.undecided, v, b.running - one, l.completed + one, l.rejected, l.discarded);
  }

  lemma StopLedger(s: State, thread: nat)
    requires LedgerOk(s.ledger, s.store, s.gate)
    ensures var t := ApplyStop(s, thread); LedgerOk(t.ledger, t.store, t.gate)
  {
    hide Sum, AllBelow;
    if !s.gate.stopping {
      var b, l, ring := s.store, s.ledger, multiset(s.store.ring);
      MovedToDiscarded(b.undecided, ring, b.running, l.completed, l.rejected, l.discarded);
      assert b.withdrawing <= l.discarded + ring;
    }
  }

  lemma MovedToDiscarded(a: multiset<nat>, ring: multiset<nat>, b: multiset<nat>, c: multiset<nat>, d: multiset<nat>,
                         e: multiset<nat>)
    ensures a + ring + b + c + d + e == a + multiset{} + b + c + d + (e + ring)
  {
  }

  // ----- ... the order of publication

  lemma PublishOrder(s: State, id: nat)
    requires OrderOk(s.ledger, s.store, s.gate)
    ensures var t := ApplyPublish(s, id); OrderOk(t.ledger, t.store, t.gate)
  {
    assert s.ledger.started + (s.store.ring + [id]) == (s.ledger.started + s.store.ring) + [id];
  }

  lemma CheckOrder(s: State, woken: bool)
    requires OrderOk(s.ledger, s.store, s.gate)
    ensures var t := ApplyCheck(s, woken); OrderOk(t.ledger, t.store, t.gate)
  {
    var l, b := s.ledger, s.store;
    if b.ring != [] {
      var one := multiset{b.ring[0]};
      assert l.started + b.ring == (l.started + [b.ring[0]]) + b.ring[1..];
      assert (b.running + one) + l.completed == (b.running + l.completed) + one;
    }
  }

  lemma FinishOrder(s: State, id: nat)
    requires OrderOk(s.ledger, s.store, s.gate) && id in s.store.running
    ensures var t := ApplyFinish(s, id); OrderOk(t.ledger, t.store, t.gate)
  {
    SplitOff(s.store.running, id);
    var rest, one := s.store.running - multiset{id}, multiset{id};
    assert (rest + one) + s.ledger.completed == rest + (s.ledger.completed + one);
  }

  /** What the ledger does not see. */
  lemma Unseen(s: State, t: State)
    requires t.gate.stopping == s.gate.stopping && t.ledger == s.ledger
    requires s.gate.stopping || t.store.ring == s.store.ring
    requires t.store.undecided == s.store.undecided && t.store.running == s.store.running
    requires t.store.withdrawing <= s.store.withdrawing
    requires LedgerOk(s.ledger, s.store, s.gate) && OrderOk(s.ledger, s.store, s.gate)
    ensures LedgerOk(t.ledger, t.store, t.gate) && OrderOk(t.ledger, t.store, t.gate)
  {
  }

  // ----- ... and the counts

  lemma SubmitKeeps(s: State)
    requires Inv(s)
    ensures Inv(ApplySubmit(s))
    ensures !s.gate.stopping && s.store.queued + s.store.reserved < s.store.capacity ==> s.store.free > 0
  {
    hide LedgerOk, OneJoiner;
    SubmitLedger(s);
  }

  lemma PublishKeeps(s: State, id: nat)
    requires Inv(s) && id in s.store.undecided
    ensures Inv(ApplyPublish(s, id))
  {
    hide LedgerOk, OneJoiner, OrderOk;
    PublishLedger(s, id);
    PublishOrder(s, id);
    SplitOff(s.store.undecided, id);
  }

  lemma WithdrawKeeps(s: State, id: nat)
    requires Inv(s) && id in s.store.withdrawing
    ensures Inv(ApplyWithdraw(s, id))
  {
    hide OneJoiner, OrderOk, LedgerOk;
    SplitOff(s.store.withdrawing, id);
    Unseen(s, ApplyWithdraw(s, id));
  }

  lemma NotifyOneKeeps(s: State, joiner: Option<nat>)
    requires Inv(s) && Enabled(s, NotifyOne(joiner))
    ensures Inv(ApplyNotifyOne(s, joiner))
  {
    hide LedgerOk, OrderOk, JoinersOk, OneJoiner;
    Unseen(s, ApplyNotifyOne(s, joiner));
    NotifyOneJoiners(s, joiner);
  }

  lemma NotifyOneJoiners(s: State, joiner: Option<nat>)
    requires JoinersOk(s.crew, s.store, s.gate) && OneJoiner(s.gate) && Enabled(s, NotifyOne(joiner))
    requires GateOk(s.store, s.gate)
    ensures var t := ApplyNotifyOne(s, joiner);
            JoinersOk(t.crew, t.store, t.gate) && OneJoiner(t.gate) && GateOk(t.store, t.gate)
  {
  }

  lemma JoinerSpuriousKeeps(s: State, thread: nat)
    requires Inv(s) && Enabled(s, JoinerSpurious(thread))
    ensures Inv(Apply(s, JoinerSpurious(thread)))
  {
    hide LedgerOk, OrderOk;
    Unseen(s, Apply(s, JoinerSpurious(thread)));
  }

  lemma NotifyAllKeeps(s: State)
    requires Inv(s) && Enabled(s, NotifyAll)
    ensures Inv(ApplyNotifyAll(s))
  {
    hide LedgerOk, OrderOk;
    Unseen(s, ApplyNotifyAll(s));
  }

  lemma CheckKeeps(s: State, woken: bool)
    requires Inv(s) && Enabled(s, Check(woken))
    ensures Inv(ApplyCheck(s, woken))
  {
    hide LedgerOk, OrderOk, OneJoiner;
    CheckLedger(s, woken);
    CheckOrder(s, woken);
  }

  lemma FinishKeeps(s: State, id: nat)
    requires Inv(s) && id in s.store.running
    ensures Inv(ApplyFinish(s, id))
  {
    hide LedgerOk, OrderOk, OneJoiner;
    FinishLedger(s, id);
    FinishOrder(s, id);
    SplitOff(s.store.running, id);
  }

  lemma StopKeeps(s: State, thread: nat)
    requires Inv(s)
    ensures Inv(ApplyStop(s, thread))
  {
    hide LedgerOk;
    StopLedger(s, thread);
  }

  lemma TakeDroppedKeeps(s: State)
    requires Inv(s) && Enabled(s, TakeDropped)
    ensures s.store.ring != [] && Inv(ApplyTakeDropped(s))
  {
    hide LedgerOk, OrderOk;
    Unseen(s, ApplyTakeDropped(s));
  }

  lemma ReleaseDroppedKeeps(s: State)
    requires Inv(s) && Enabled(s, ReleaseDropped)
    ensures Inv(Apply(s, ReleaseDropped))
  {
    hide LedgerOk, OrderOk;
    Unseen(s, Apply(s, ReleaseDropped));
  }

  lemma EndDrainKeeps(s: State)
    requires Inv(s) && Enabled(s, EndDrain)
    ensures Inv(Apply(s, EndDrain))
  {
    hide LedgerOk, OrderOk;
    Unseen(s, Apply(s, EndDrain));
  }

  lemma JoinKeeps(s: State, thread: nat)
    requires Inv(s) && Enabled(s, Join(thread))
    ensures Inv(Apply(s, Join(thread)))
  {
    hide LedgerOk, OrderOk;
    Unseen(s, Apply(s, Join(thread)));
  }

  lemma EnterJoinKeeps(s: State, thread: nat)
    requires Inv(s) && Enabled(s, EnterJoin(thread))
    ensures Inv(Apply(s, EnterJoin(thread)))
  {
    hide LedgerOk, OrderOk;
    Unseen(s, Apply(s, EnterJoin(thread)));
  }

  lemma ThreadsJoinedKeeps(s: State, thread: nat)
    requires Inv(s) && Enabled(s, ThreadsJoined(thread))
    ensures Inv(Apply(s, ThreadsJoined(thread)))
  {
    hide LedgerOk, OrderOk;
    Unseen(s, Apply(s, ThreadsJoined(thread)));
  }

  lemma LeaveJoinKeeps(s: State, thread: nat)
    requires Inv(s) && Enabled(s, LeaveJoin(thread))
    ensures Inv(Apply(s, LeaveJoin(thread)))
  {
    hide LedgerOk, OrderOk;
    Unseen(s, Apply(s, LeaveJoin(thread)));
  }

  lemma SpuriousKeeps(s: State)
    requires Inv(s) && Enabled(s, Spurious)
    ensures Inv(Apply(s, Spurious))
  {
    hide LedgerOk, OrderOk, OneJoiner;
  }

  lemma StepKeeps(s: State, step: Step)
    requires Inv(s) && Enabled(s, step)
    ensures Inv(Apply(s, step))
  {
    hide StoreOk, GateOk, LedgerOk, OrderOk, JoinersOk, OneJoiner;
    match step
    case Submit => SubmitKeeps(s);
    case Publish(id) => PublishKeeps(s, id);
    case Withdraw(id) => WithdrawKeeps(s, id);
    case NotifyOne(joiner) => NotifyOneKeeps(s, joiner);
    case NotifyAll => NotifyAllKeeps(s);
    case Spurious => SpuriousKeeps(s);
    case JoinerSpurious(thread) => JoinerSpuriousKeeps(s, thread);
    case Check(woken) => CheckKeeps(s, woken);
    case Finish(id) => FinishKeeps(s, id);
    case Stop(thread) => StopKeeps(s, thread);
    case TakeDropped => TakeDroppedKeeps(s);
    case ReleaseDropped => ReleaseDroppedKeeps(s);
    case EndDrain => EndDrainKeeps(s);
    case Join(thread) => JoinKeeps(s, thread);
    case EnterJoin(thread) => EnterJoinKeeps(s, thread);
    case ThreadsJoined(thread) => ThreadsJoinedKeeps(s, thread);
    case LeaveJoin(thread) => LeaveJoinKeeps(s, thread);
  }

  // ----- whole runs

  ghost predicate Runs(s: State, steps: seq<Step>)
    decreases |steps|
  {
    steps == [] || (Enabled(s, steps[0]) && Runs(Apply(s, steps[0]), steps[1..]))
  }

  ghost function Reached(s: State, steps: seq<Step>): State
    decreases |steps|
  {
    if steps == [] then s else Reached(Apply(s, steps[0]), steps[1..])
  }

  lemma {:induction false} RunKeeps(s: State, steps: seq<Step>)
    requires Inv(s) && Runs(s, steps)
    ensures Inv(Reached(s, steps))
    decreases |steps|
  {
    if steps != [] {
      StepKeeps(s, steps[0]);
      RunKeeps(Apply(s, steps[0]), steps[1..]);
    }
  }

  lemma InitialIsOk(capacity: nat, threads: nat)
    ensures Inv(Initial(capacity, threads))
  {
  }

  lemma ReachedIsOk(capacity: nat, threads: nat, steps: seq<Step>)
    requires Runs(Initial(capacity, threads), steps)
    ensures Inv(Reached(Initial(capacity, threads), steps))
  {
    InitialIsOk(capacity, threads);
    RunKeeps(Initial(capacity, threads), steps);
  }

  /** In every reachable state the submission counters and the tasks in flight add up to what was submitted. */
  lemma EachIsCountedOnce(capacity: nat, threads: nat, steps: seq<Step>, id: nat)
    requires Runs(Initial(capacity, threads), steps)
    ensures var s := Reached(Initial(capacity, threads), steps);
            var b, l := s.store, s.ledger;
            && b.undecided[id] + Live(b, s.gate)[id] + b.running[id]
               + l.completed[id] + l.rejected[id] + l.discarded[id]
               == (if id < l.submitted then 1 else 0)
            && b.queued == |Live(b, s.gate)| && b.reserved == |b.undecided| + |b.withdrawing|
  {
    ReachedIsOk(capacity, threads, steps);
    var s := Reached(Initial(capacity, threads), steps);
    var b, l := s.store, s.ledger;
    assert (b.undecided + Live(b, s.gate) + b.running + l.completed + l.rejected + l.discarded)[id]
        == AllBelow(l.submitted)[id];
  }

  /** The queue operations that would otherwise end the process never fail: an admitted submission finds a node,
      its task fits into the ring, and whoever takes a task from the ring finds one. */
  lemma StorageSuffices(capacity: nat, threads: nat, steps: seq<Step>)
    requires Runs(Initial(capacity, threads), steps)
    ensures var s := Reached(Initial(capacity, threads), steps);
            && (!s.gate.stopping && s.store.queued + s.store.reserved < capacity ==> s.store.free > 0)
            && (!s.gate.stopping && s.store.undecided != multiset{} ==> |s.store.ring| < capacity)
            && (s.store.queued > 0 ==> s.store.ring != [])
            && (s.gate.toDrop > 0 ==> s.store.ring != [])
  {
    ReachedIsOk(capacity, threads, steps);
    SizesStay(Initial(capacity, threads), steps);
  }

  lemma {:induction false} SizesStay(s: State, steps: seq<Step>)
    requires Runs(s, steps)
    ensures Reached(s, steps).store.capacity == s.store.capacity && Reached(s, steps).store.threads == s.store.threads
    decreases |steps|
  {
    if steps != [] {
      SizesStay(Apply(s, steps[0]), steps[1..]);
    }
  }

  /** Tasks start in the order of publication; once stop is published none starts, and none is published. */
  lemma NothingStartsAfterStop(s: State, steps: seq<Step>)
    requires Inv(s) && s.gate.stopping && Runs(s, steps)
    ensures var t := Reached(s, steps);
            t.gate.stopping && t.ledger.started == s.ledger.started <= t.ledger.published == s.ledger.published
  {
    StopFreezes(s, steps);
  }

  lemma {:induction false} StopFreezes(s: State, steps: seq<Step>)
    requires s.gate.stopping && Runs(s, steps)
    ensures var t := Reached(s, steps);
            t.gate.stopping && t.ledger.started == s.ledger.started && t.ledger.published == s.ledger.published
    decreases |steps|
  {
    if steps != [] {
      StopFreezes(Apply(s, steps[0]), steps[1..]);
    }
  }

  lemma StartedInOrder(capacity: nat, threads: nat, steps: seq<Step>)
    requires Runs(Initial(capacity, threads), steps)
    ensures var s := Reached(Initial(capacity, threads), steps);
            && s.ledger.started <= s.ledger.published
            && (!s.gate.stopping ==> s.ledger.published == s.ledger.started + s.store.ring)
            && multiset(s.ledger.started) == s.store.running + s.ledger.completed
  {
    ReachedIsOk(capacity, threads, steps);
  }

  /** When join() has returned, every pool thread has left, no task runs and no submission holds a node, nor will one;
      only the joiner itself may still be draining. */
  lemma JoinReturnsLast(capacity: nat, threads: nat, steps: seq<Step>, later: seq<Step>, thread: nat)
    requires Runs(Initial(capacity, threads), steps)
    requires At(Reached(Initial(capacity, threads), steps).gate, thread, Returned)
    requires Runs(Reached(Initial(capacity, threads), steps), later)
    ensures var t := Reached(Reached(Initial(capacity, threads), steps), later);
            && t.crew.exited == threads && t.store.running == multiset{} && t.store.reserved == 0
            && (t.gate.drainer == None || t.gate.drainer == Some(thread))
  {
    var s := Reached(Initial(capacity, threads), steps);
    ReachedIsOk(capacity, threads, steps);
    RunKeeps(s, later);
    SizesStay(Initial(capacity, threads), steps);
    SizesStay(s, later);
    ReturnedStays(s, later, thread);
  }

  lemma ReturnedIsKept(s: State, step: Step, thread: nat)
    requires At(s.gate, thread, Returned) && Enabled(s, step)
    ensures At(Apply(s, step).gate, thread, Returned)
  {
  }

  lemma {:induction false} ReturnedStays(s: State, steps: seq<Step>, thread: nat)
    requires At(s.gate, thread, Returned) && Runs(s, steps)
    ensures At(Reached(s, steps).gate, thread, Returned)
    decreases |steps|
  {
    hide Apply, Enabled;
    if steps != [] {
      ReturnedIsKept(s, steps[0], thread);
      ReturnedStays(Apply(s, steps[0]), steps[1..], thread);
    }
  }

  /** No wake-up is lost: while a pool thread sleeps, the waiting tasks are covered by threads already woken and
      notifications still to come, and so is a stop; a joiner sleeps only while what it waits for is outstanding. */
  lemma NobodySleepsOnWork(capacity: nat, threads: nat, steps: seq<Step>, thread: nat)
    requires Runs(Initial(capacity, threads), steps)
    ensures var s := Reached(Initial(capacity, threads), steps);
            && (s.crew.asleep > 0 ==> s.store.queued <= s.crew.ones + s.crew.woken)
            && (s.crew.asleep > 0 && s.gate.stopping ==> s.crew.alls > 0)
            && (At(s.gate, thread, WaitsForRest) ==> !MayLeave(s, thread) || s.crew.alls > 0)
            && (At(s.gate, thread, WaitsForJoiner) ==> s.gate.joining || s.crew.alls > 0)
  {
    hide LedgerOk, OrderOk, OneJoiner, GateOk;
    ReachedIsOk(capacity, threads, steps);
  }

  // ----- what submit() and stop() answer

  /** A submission is discarded exactly if the pool has stopped, rejected exactly if the queue and the reservations fill
      the capacity, and reserved otherwise; nothing else changes. */
  lemma SubmissionIsAnswered(s: State)
    ensures var t, id := ApplySubmit(s), multiset{s.ledger.submitted};
            var full := s.store.queued + s.store.reserved >= s.store.capacity;
            && t.ledger.discarded == s.ledger.discarded + (if s.gate.stopping then id else multiset{})
            && t.ledger.rejected == s.ledger.rejected + (if !s.gate.stopping && full then id else multiset{})
            && t.store.undecided == s.store.undecided + (if !s.gate.stopping && !full then id else multiset{})
            && t.ledger.completed == s.ledger.completed && t.ledger.started == s.ledger.started && t.gate == s.gate
  {
  }

  function Submissions(n: nat): (steps: seq<Step>)
    ensures |steps| == n
  {
    if n == 0 then [] else [Submit] + Submissions(n - 1)
  }

  /** A fresh pool reserves for as many submissions as its capacity, and rejects the next one. */
  lemma FreshPoolAdmitsCapacity(capacity: nat, threads: nat)
    ensures Runs(Initial(capacity, threads), Submissions(capacity + 1))
    ensures var s := Reached(Initial(capacity, threads), Submissions(capacity + 1));
            |s.store.undecided| == s.store.reserved == capacity && s.ledger.rejected == multiset{capacity}
  {
    SubmissionsFill(Initial(capacity, threads), capacity);
  }

  lemma {:induction false} SubmissionsFill(s: State, n: nat)
    requires !s.gate.stopping && s.store.queued == 0 && s.store.reserved + n == s.store.capacity
    requires |s.store.undecided| == s.store.reserved == s.ledger.submitted && s.ledger.rejected == multiset{}
    ensures Runs(s, Submissions(n + 1))
    ensures var t := Reached(s, Submissions(n + 1));
            && |t.store.undecided| == t.store.reserved == s.store.capacity
            && t.ledger.rejected == multiset{s.store.capacity}
    decreases n
  {
    var t := Apply(s, Submit);
    assert Submissions(n + 1)[1..] == Submissions(n);
    if n > 0 {
      SubmissionsFill(t, n - 1);
    } else {
      assert Submissions(0) == [];
      assert Reached(t, []) == t;
    }
  }

  /** The first stop() takes what is queued: it counts it as discarded, and the thread that stopped drains it. */
  lemma StopTakesTheQueue(s: State, thread: nat)
    requires Inv(s) && !s.gate.stopping
    ensures var t := Apply(s, Stop(thread));
            && t.gate.stopping && t.gate.toDrop == |s.store.ring| && t.store.ring == s.store.ring
            && t.gate.drainer == (if s.store.ring == [] then None else Some(thread))
            && t.ledger.discarded == s.ledger.discarded + multiset(s.store.ring)
            && t.ledger.completed == s.ledger.completed && t.ledger.rejected == s.ledger.rejected
  {
  }

  lemma OnlyStopDiscards(s: State, step: Step)
    requires !s.gate.stopping && Enabled(s, step) && !step.Stop?
    ensures !Apply(s, step).gate.stopping && Apply(s, step).ledger.discarded == s.ledger.discarded
  {
  }

  /** Without a stop nothing is discarded. */
  lemma {:induction false} NothingDiscardedUnlessStopped(s: State, steps: seq<Step>)
    requires !s.gate.stopping && Runs(s, steps) && forall k :: 0 <= k < |steps| ==> !steps[k].Stop?
    ensures !Reached(s, steps).gate.stopping && Reached(s, steps).ledger.discarded == s.ledger.discarded
    decreases |steps|
  {
    hide Apply, Enabled;
    if steps != [] {
      OnlyStopDiscards(s, steps[0]);
      NothingDiscardedUnlessStopped(Apply(s, steps[0]), steps[1..]);
    }
  }
}
