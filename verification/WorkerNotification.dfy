/** The cross-thread wake-up latch of a worker (ruvia-core/src/worker_notification.cpp
    and worker_notification_posix.cpp). Every step is one atomic operation or one
    system call; any number of producers and the one consumer interleave freely.
    The native channel is a counter: a signal adds a token unless the channel is
    full, a drain takes at least one token if there is any. */
module WorkerNotification {

  const CLOSED: nat := 0x8000_0000_0000_0000   // activity_: the closed bit ...
  const COUNT_MASK: nat := 0x7fff_ffff_ffff_ffff   // ... above the producer count

  datatype Status = Notified | Coalesced | Closed

  /** One notify() call. */
  datatype Producer =
    | Entered                       // counted; the latch exchange is next
    | Covered                       // the latch was set already
    | Won                           // this call set the latch
    | Signaling                     // ... and saw the notification open
    | Signaled(full: bool)
    | Leaving(status: Status)
    | Returned(status: Status)

  datatype Consumer =
    | Idle
    | Polling                       // wait_ready passed its closed check
    | Polled(received: bool, error: bool)   // drained; the latch exchange is next
    | Missed                        // wait_ready found nothing; begin_wait is next
    | Parked                        // the native wait is registered
    | Woken                         // complete_wait passed its closed check
    | Drained(error: bool)          // ... and drained; the latch exchange is next

  datatype State = State(
    activity: nat,
    pending: bool,                  // the latch
    tokens: nat,
    capacity: nat,
    producers: map<nat, Producer>,
    consumer: Consumer,
    waiting: set<nat>,              // calls past their exchange since the last notified wait
    answered: set<nat>,             // ... and those before it
    sent: set<nat>,                 // calls that added a token to the channel
    taken: nat)                     // tokens taken out of it

  datatype Step =
    | Enter(id: nat) | Exchange(id: nat) | CheckOpen(id: nat) | Signal(id: nat) | Leave(id: nat)
    | BeginPoll | PollDrain(taken: nat, error: bool) | PollExchange | Park
    | Wake(error: bool) | WakeDrain(taken: nat, error: bool) | WakeExchange
    | Close

  predicate IsClosed(s: State) {
    s.activity >= CLOSED
  }

  /** Between its latch exchange and its native signal. */
  predicate OwesSignal(p: Producer) {
    p == Won || p == Signaling
  }

  ghost function Inside(producers: map<nat, Producer>): set<nat> {
    set id | id in producers && !producers[id].Returned?
  }

  predicate At(s: State, id: nat, p: Producer) {
    id in s.producers && s.producers[id] == p
  }

  predicate Enabled(s: State, step: Step) {
    match step
    case Enter(id) => id !in s.producers && (IsClosed(s) || s.activity < COUNT_MASK)
    case Exchange(id) => At(s, id, Entered)
    case CheckOpen(id) => id in s.producers
        && (s.producers[id].Covered? || s.producers[id].Won? || s.producers[id].Signaled?)
    case Signal(id) => At(s, id, Signaling)
    case Leave(id) => id in s.producers && s.producers[id].Leaving?
    case BeginPoll => s.consumer == Idle
    case PollDrain(taken, error) => s.consumer == Polling && (error || s.tokens == 0 || 0 < taken <= s.tokens)
    case PollExchange => s.consumer.Polled?
    case Park => s.consumer == Missed
    case Wake(error) => s.consumer == Parked && (s.tokens > 0 || IsClosed(s) || error)
    case WakeDrain(taken, error) => s.consumer == Woken && (error || s.tokens == 0 || 0 < taken <= s.tokens)
    case WakeExchange => s.consumer.Drained?
    case Close => s.consumer == Idle || s.consumer == Parked
  }

  function Move(s: State, id: nat, p: Producer): State {
    s.(producers := s.producers[id := p])
  }

  /** What is_closed() makes of the call's status. */
  function Checked(s: State, p: Producer): Producer {
    if IsClosed(s) then Leaving(Closed)
    else match p
         case Won => Signaling
         case Signaled(false) => Leaving(Notified)
         case _ => Leaving(Coalesced)
  }

  /** drain_native_receiver. */
  function Drain(s: State, taken: nat, error: bool): nat {
    if error || taken > s.tokens then s.tokens else s.tokens - taken
  }

  function Take(s: State, taken: nat, error: bool): State {
    var left := Drain(s, taken, error);
    s.(tokens := left, taken := s.taken + if left <= s.tokens then s.tokens - left else 0)
  }

  function Received(s: State, error: bool): bool {
    !error && s.tokens > 0
  }

  /** A wait ends, having taken the latch; one that failed answers nobody. */
  function Finish(s: State, notified: bool): State {
    s.(pending := false, consumer := Idle, waiting := if notified then {} else s.waiting,
       answered := if notified then s.answered + s.waiting else s.answered)
  }

  function Apply(s: State, step: Step): State
    requires Enabled(s, step)
  {
    match step
    case Enter(id) =>
      if IsClosed(s) then Move(s, id, Returned(Closed)) else Move(s, id, Entered).(activity := s.activity + 1)
    case Exchange(id) =>
      Move(s, id, if s.pending then Covered else Won).(pending := true, waiting := s.waiting + {id})
    case CheckOpen(id) => Move(s, id, Checked(s, s.producers[id]))
    case Signal(id) =>
      if s.tokens < s.capacity then Move(s, id, Signaled(false)).(tokens := s.tokens + 1, sent := s.sent + {id})
      else Move(s, id, Signaled(true))
    case Leave(id) =>
      Move(s, id, Returned(s.producers[id].status)).(activity := if s.activity > 0 then s.activity - 1 else 0)
    case BeginPoll => if IsClosed(s) then s else s.(consumer := Polling)
    case PollDrain(taken, error) =>
      Take(s, taken, error).(consumer := Polled(Received(s, error), error))
    case PollExchange =>
      if s.consumer.error || s.consumer.received || s.pending then Finish(s, !s.consumer.error)
      else s.(consumer := Missed)
    case Park => s.(consumer := if IsClosed(s) then Idle else Parked)
    case Wake(error) => s.(consumer := if IsClosed(s) || error then Idle else Woken)
    case WakeDrain(taken, error) => Take(s, taken, error).(consumer := Drained(error))
    case WakeExchange => Finish(s, !s.consumer.error)
    case Close => if IsClosed(s) then s else s.(activity := s.activity + CLOSED)
  }

  // ----- the invariant

  ghost predicate CountOk(s: State) {
    s.activity == |Inside(s.producers)| + (if IsClosed(s) then CLOSED else 0) && |Inside(s.producers)| <= COUNT_MASK
  }

  /** The consumer took tokens and will answer at its exchange. */
  predicate WillAnswer(c: Consumer) {
    c == Polled(true, false) || c == Drained(false)
  }

  /** While the latch is set, or some call is unanswered, there is a token in the
      channel, or a producer about to put one there, or the consumer will answer. */
  ghost predicate LatchOk(s: State) {
    !IsClosed(s) && (s.pending || s.waiting != {}) && !WillAnswer(s.consumer) ==>
      s.tokens > 0 || exists id :: id in s.producers && OwesSignal(s.producers[id])
  }

  ghost predicate WaitingOk(s: State) {
    && (s.consumer.Polled? ==> !(s.consumer.received && s.consumer.error))
    && (forall id :: id in s.producers && s.producers[id] != Entered && s.producers[id] != Returned(Closed) ==>
          id in s.waiting || id in s.answered)
  }

  /** How far a call got says whether it added a token. */
  predicate SentOk(p: Producer, sent: bool, closed: bool) {
    match p
    case Entered => !sent
    case Covered => !sent
    case Won => !sent
    case Signaling => !sent
    case Signaled(full) => sent == !full
    case Leaving(status) => StatusOk(status, sent, closed)
    case Returned(status) => StatusOk(status, sent, closed)
  }

  predicate StatusOk(status: Status, sent: bool, closed: bool) {
    match status
    case Notified => sent
    case Coalesced => !sent
    case Closed => closed
  }

  /** Each token was added by a call of its own. */
  ghost predicate TokensOk(s: State) {
    && |s.sent| == s.tokens + s.taken
    && (forall id :: id in s.sent ==> id in s.producers)
    && (forall id :: id in s.producers ==> SentOk(s.producers[id], id in s.sent, IsClosed(s)))
  }

  ghost predicate Inv(s: State) {
    s.tokens <= s.capacity && s.capacity > 0 && CountOk(s) && LatchOk(s) && WaitingOk(s) && TokensOk(s)
  }

  function Initial(capacity: nat): State {
    State(0, false, 0, capacity, map[], Idle, {}, {}, {}, 0)
  }

  lemma MoveKeepsCount(producers: map<nat, Producer>, id: nat, p: Producer)
    ensures var inside := id in producers && !producers[id].Returned?;
      |Inside(producers[id := p])| == |Inside(producers)| + (if !p.Returned? then 1 else 0) - (if inside then 1 else 0)
  {
    if p.Returned? {
      assert Inside(producers[id := p]) == Inside(producers) - {id};
    } else {
      assert Inside(producers[id := p]) == Inside(producers) + {id};
    }
  }

  lemma MoveKeepsOthers(s: State, id: nat, p: Producer)
    requires LatchOk(s)
    requires id in s.producers && OwesSignal(s.producers[id]) ==> OwesSignal(p) || IsClosed(s) || s.tokens > 0
    ensures LatchOk(Move(s, id, p))
  {
    if !IsClosed(s) && (s.pending || s.waiting != {}) && !WillAnswer(s.consumer) && s.tokens == 0 {
      var k :| k in s.producers && OwesSignal(s.producers[k]);
      assert k != id ==> Move(s, id, p).producers[k] == s.producers[k];
      assert OwesSignal(Move(s, id, p).producers[k]);
    }
  }

  lemma CallMoves(s: State, t: State, id: nat, p: Producer)
    requires TokensOk(s) && t.producers == s.producers[id := p] && IsClosed(t) == IsClosed(s)
    requires t.taken == s.taken && t.tokens - s.tokens == |t.sent| - |s.sent|
    requires t.sent == s.sent || t.sent == s.sent + {id}
    requires SentOk(p, id in t.sent, IsClosed(s))
    ensures TokensOk(t)
  {
    hide SentOk, IsClosed;
  }

  lemma ProducerKeepsTokens(s: State, step: Step)
    requires Inv(s) && Enabled(s, step)
             && (step.Enter? || step.Exchange? || step.CheckOpen? || step.Signal? || step.Leave?)
    ensures TokensOk(Apply(s, step))
  {
    hide LatchOk, WaitingOk, TokensOk;
    var id, t := step.id, Apply(s, step);
    CallIsOk(s, id);
    if step.Leave? { LeaveIsCounted(s, id); }
    CallMoves(s, t, id, t.producers[id]);
  }

  lemma CallIsOk(s: State, id: nat)
    requires TokensOk(s)
    ensures id in s.producers ==> SentOk(s.producers[id], id in s.sent, IsClosed(s))
    ensures id !in s.producers ==> id !in s.sent
  {
  }

  lemma LeaveIsCounted(s: State, id: nat)
    requires CountOk(s) && id in s.producers && !s.producers[id].Returned?
    ensures s.activity > 0 && IsClosed(s) == (s.activity - 1 >= CLOSED)
  {
    assert id in Inside(s.producers);
  }

  lemma ProducerKeeps(s: State, step: Step)
    requires Inv(s) && Enabled(s, step)
             && (step.Enter? || step.Exchange? || step.CheckOpen? || step.Signal? || step.Leave?)
    ensures Inv(Apply(s, step))
  {
    hide SentOk, TokensOk;
    var s' := Apply(s, step);
    ProducerKeepsTokens(s, step);
    MoveKeepsCount(s.producers, step.id, s'.producers[step.id]);
    match step {
      case Exchange(id) =>
        if !s.pending {
          assert OwesSignal(s'.producers[id]);
        } else {
          MoveKeepsOthers(s, id, Covered);
        }
      case Enter(id) => MoveKeepsOthers(s, id, s'.producers[id]);
      case CheckOpen(id) => MoveKeepsOthers(s, id, s'.producers[id]);
      case Leave(id) => MoveKeepsOthers(s, id, s'.producers[id]);
      case _ =>
    }
  }

  lemma ConsumerKeeps(s: State, step: Step)
    requires Inv(s) && Enabled(s, step)
             && !(step.Enter? || step.Exchange? || step.CheckOpen? || step.Signal? || step.Leave?)
    ensures Inv(Apply(s, step))
  {
  }

  /** Any interleaving: steps that are not possible when their turn comes do nothing. */
  ghost function Run(s: State, steps: seq<Step>): State
    decreases |steps|
  {
    if steps == [] then s else Run(if Enabled(s, steps[0]) then Apply(s, steps[0]) else s, steps[1..])
  }

  lemma {:induction false} RunKeeps(s: State, steps: seq<Step>)
    requires Inv(s)
    ensures Inv(Run(s, steps))
    decreases |steps|
  {
    hide Inv, Apply, Enabled;
    if steps != [] {
      if Enabled(s, steps[0]) { StepKeeps(s, steps[0]); }
      RunKeeps(if Enabled(s, steps[0]) then Apply(s, steps[0]) else s, steps[1..]);
    }
  }

  lemma StepKeeps(s: State, step: Step)
    requires Inv(s) && Enabled(s, step)
    ensures Inv(Apply(s, step))
  {
    hide Inv, Apply, Enabled;
    if step.Enter? || step.Exchange? || step.CheckOpen? || step.Signal? || step.Leave? {
      ProducerKeeps(s, step);
    } else {
      ConsumerKeeps(s, step);
    }
  }

  // ----- whole runs

  /** No wake-up is lost: while the notification is open, a consumer parked on the
      native wait with the latch set or a call unanswered has a token to wake it, or
      a producer that is still to signal. */
  lemma NoLostWakeup(capacity: nat, steps: seq<Step>)
    requires capacity > 0
    ensures var s := Run(Initial(capacity), steps);
      !IsClosed(s) && s.consumer == Parked && (s.pending || s.waiting != {}) ==>
        s.tokens > 0 || exists id :: id in s.producers && OwesSignal(s.producers[id])
  {
    assert Inside(map[]) == {};
    RunKeeps(Initial(capacity), steps);
  }

  /** Once no producer is inside a call and the consumer can only sleep, every call
      that was accepted, coalesced ones included, has been answered by a notified wait
      that ended after it. */
  lemma EveryCallIsAnswered(capacity: nat, steps: seq<Step>, id: nat)
    requires capacity > 0
    requires var s := Run(Initial(capacity), steps);
      && !IsClosed(s) && s.consumer == Parked && s.tokens == 0
      && (forall k :: k in s.producers ==> s.producers[k].Returned?)
      && id in s.producers && s.producers[id] != Returned(Closed)
    ensures var s := Run(Initial(capacity), steps); id in s.answered && !s.pending && s.activity == 0
  {
    assert Inside(map[]) == {};
    RunKeeps(Initial(capacity), steps);
    var s := Run(Initial(capacity), steps);
    assert Inside(s.producers) == {};
  }

  /** What notify() answers: while the notification is open, Notified exactly to the calls that added a token to the
      channel, and Coalesced to the others; Closed to nobody. Each token was added by one call. */
  lemma NotifiedMeansSent(capacity: nat, steps: seq<Step>, id: nat, status: Status)
    requires capacity > 0
    ensures var s := Run(Initial(capacity), steps);
            && (At(s, id, Returned(status)) ==>
                  && (status == Notified ==> id in s.sent) && (status == Coalesced ==> id !in s.sent)
                  && (status == Closed ==> IsClosed(s)))
            && |s.sent| == s.tokens + s.taken
  {
    hide Run, CountOk, LatchOk, WaitingOk;
    InitialHolds(capacity);
    RunKeeps(Initial(capacity), steps);
    var s := Run(Initial(capacity), steps);
    if id in s.producers {
      assert SentOk(s.producers[id], id in s.sent, IsClosed(s));
    }
  }

  lemma InitialHolds(capacity: nat)
    requires capacity > 0
    ensures Inv(Initial(capacity))
  {
    assert Inside(map[]) == {};
  }

  predicate Refused(s: State, id: nat) {
    At(s, id, Returned(Closed))
  }

  /** Calls that begin after the close are all refused. */
  lemma {:induction false} ClosedStaysClosed(s: State, steps: seq<Step>)
    requires Inv(s) && IsClosed(s)
    ensures IsClosed(Run(s, steps))
    ensures forall id :: id in Run(s, steps).producers && id !in s.producers ==> Refused(Run(s, steps), id)
    ensures forall id :: Refused(s, id) ==> Refused(Run(s, steps), id)
    decreases |steps|
  {
    hide Inv, Apply, Enabled, IsClosed;
    if steps != [] {
      if Enabled(s, steps[0]) {
        StepKeeps(s, steps[0]);
        ClosedStep(s, steps[0]);
      }
      ClosedStaysClosed(if Enabled(s, steps[0]) then Apply(s, steps[0]) else s, steps[1..]);
    }
  }

  lemma ClosedStep(s: State, step: Step)
    requires Inv(s) && IsClosed(s) && Enabled(s, step)
    ensures IsClosed(Apply(s, step))
    ensures forall id :: id in Apply(s, step).producers && id !in s.producers ==> Refused(Apply(s, step), id)
    ensures forall id :: Refused(s, id) ==> Refused(Apply(s, step), id)
    ensures forall id :: id in s.producers ==> id in Apply(s, step).producers
  {
    if step.Leave? { assert step.id in Inside(s.producers); }
  }

  lemma ChannelIsBounded(s: State)
    requires Inv(s)
    ensures s.tokens <= s.capacity
  {
  }

  // ----- what one call and one wait come to when nobody comes between

  predicate Open(s: State) {
    !IsClosed(s) && s.activity < COUNT_MASK
  }

  /** The steps of a call that finds the latch clear, and of one that finds it set. */
  function FirstCall(id: nat): seq<Step> {
    [Enter(id), Exchange(id), CheckOpen(id), Signal(id), CheckOpen(id), Leave(id)]
  }

  function LaterCall(id: nat): seq<Step> {
    [Enter(id), Exchange(id), CheckOpen(id), Leave(id)]
  }

  lemma RunSteps(s: State, steps: seq<Step>)
    requires steps != [] && Enabled(s, steps[0])
    ensures Run(s, steps) == Run(Apply(s, steps[0]), steps[1..])
  {
  }

  /** A call on an open notification with its latch clear sets it and, unless the channel is full, adds a token. */
  lemma FirstCallSignals(s: State, id: nat)
    requires Open(s) && !s.pending && id !in s.producers
    ensures var t, full := Run(s, FirstCall(id)), s.tokens >= s.capacity;
            && At(t, id, Returned(if full then Coalesced else Notified)) && t.pending && t.activity == s.activity
            && t.tokens == s.tokens + (if full then 0 else 1) && t.consumer == s.consumer
  {
    hide Run;
    var steps := FirstCall(id);
    var a := Apply(s, Enter(id));
    var b := Apply(a, Exchange(id));
    var c := Apply(b, CheckOpen(id));
    RunSteps(s, steps);
    RunSteps(a, steps[1..]);
    RunSteps(b, steps[1..][1..]);
    assert steps[1..][1..][1..] == [Signal(id), CheckOpen(id), Leave(id)];
    SignalAnswers(c, id);
  }

  /** From the moment it is about to send. */
  lemma SignalAnswers(s: State, id: nat)
    requires !IsClosed(s) && s.activity > 0 && At(s, id, Signaling)
    ensures var t, full := Run(s, [Signal(id), CheckOpen(id), Leave(id)]), s.tokens >= s.capacity;
            && At(t, id, Returned(if full then Coalesced else Notified)) && t.pending == s.pending
            && t.activity == s.activity - 1
            && t.tokens == s.tokens + (if full then 0 else 1) && t.consumer == s.consumer
  {
    hide Run;
    var steps := [Signal(id), CheckOpen(id), Leave(id)];
    var a := Apply(s, Signal(id));
    RunSteps(s, steps);
    assert steps[1..] == [CheckOpen(id), Leave(id)];
    CheckAnswers(a, id);
  }

  /** From the moment it has to look whether the notification is still open. */
  lemma CheckAnswers(s: State, id: nat)
    requires !IsClosed(s) && s.activity > 0 && id in s.producers
    requires s.producers[id].Covered? || s.producers[id].Signaled?
    ensures var t, p := Run(s, [CheckOpen(id), Leave(id)]), s.producers[id];
            && At(t, id, Returned(if p.Signaled? && !p.full then Notified else Coalesced)) && t.pending == s.pending
            && t.activity == s.activity - 1 && t.tokens == s.tokens && t.sent == s.sent && t.consumer == s.consumer
  {
    hide Run;
    var steps := [CheckOpen(id), Leave(id)];
    var a := Apply(s, CheckOpen(id));
    RunSteps(s, steps);
    RunSteps(a, steps[1..]);
    RunNothing(Apply(a, Leave(id)), steps[1..][1..]);
  }

  lemma RunNothing(s: State, steps: seq<Step>)
    requires steps == []
    ensures Run(s, steps) == s
  {
  }

  /** One that finds the latch set leaves the channel alone. */
  lemma LaterCallCoalesces(s: State, id: nat)
    requires Open(s) && s.pending && id !in s.producers
    ensures var t := Run(s, LaterCall(id));
            && At(t, id, Returned(Coalesced)) && t.pending && t.activity == s.activity
            && t.tokens == s.tokens && t.sent == s.sent && t.consumer == s.consumer
  {
    hide Run;
    var a := Apply(s, Enter(id));
    var b := Apply(a, Exchange(id));
    var steps := LaterCall(id);
    RunSteps(s, steps);
    RunSteps(a, steps[1..]);
    assert steps[1..][1..] == [CheckOpen(id), Leave(id)];
    CheckAnswers(b, id);
  }

  /** Once the notification is closed, a call that is under way answers so as soon as it looks, and a new one at
      once. */
  lemma ClosedIsSeen(s: State, id: nat)
    ensures Enabled(s, Step.Close) ==> IsClosed(Apply(s, Step.Close))
    ensures IsClosed(s) && Enabled(s, CheckOpen(id)) ==> At(Apply(s, CheckOpen(id)), id, Leaving(Closed))
    ensures IsClosed(s) && Enabled(s, Enter(id)) ==> At(Apply(s, Enter(id)), id, Returned(Closed))
  {
  }

  /** A wait that finds nothing parks. */
  lemma EmptyWaitParks(s: State)
    requires !IsClosed(s) && s.consumer == Idle && s.tokens == 0 && !s.pending
    ensures var t := Run(s, [BeginPoll, PollDrain(0, false), PollExchange, Park]);
            t == s.(consumer := Parked)
  {
    hide Run;
    var steps := [BeginPoll, PollDrain(0, false), PollExchange, Park];
    var a := Apply(s, BeginPoll);
    var b := Apply(a, PollDrain(0, false));
    var c := Apply(b, PollExchange);
    RunSteps(s, steps);
    RunSteps(a, steps[1..]);
    RunSteps(b, steps[1..][1..]);
    RunSteps(c, steps[1..][1..][1..]);
    RunNothing(Apply(c, Park), steps[1..][1..][1..][1..]);
  }

  /** One that finds the latch set or a token returns, having taken the latch and answered everybody who waited. */
  lemma ReadyWaitReturns(s: State, taken: nat)
    requires !IsClosed(s) && s.consumer == Idle && (s.tokens > 0 || s.pending)
    requires if s.tokens == 0 then taken == 0 else 0 < taken <= s.tokens
    ensures var t := Run(s, [BeginPoll, PollDrain(taken, false), PollExchange]);
            && t.consumer == Idle && !t.pending && t.waiting == {} && t.answered == s.answered + s.waiting
            && t.tokens == s.tokens - taken && t.producers == s.producers
  {
    hide Run;
    var steps := [BeginPoll, PollDrain(taken, false), PollExchange];
    var a := Apply(s, BeginPoll);
    var b := Apply(a, PollDrain(taken, false));
    RunSteps(s, steps);
    RunSteps(a, steps[1..]);
    RunSteps(b, steps[1..][1..]);
    RunNothing(Apply(b, PollExchange), steps[1..][1..][1..]);
  }

  /** One whose read fails returns as well, and answers nobody. */
  lemma FailedWaitReturns(s: State)
    requires !IsClosed(s) && s.consumer == Idle
    ensures var t := Run(s, [BeginPoll, PollDrain(0, true), PollExchange]);
            && t.consumer == Idle && !t.pending && t.waiting == s.waiting && t.answered == s.answered
            && t.tokens == s.tokens
  {
    hide Run;
    var steps := [BeginPoll, PollDrain(0, true), PollExchange];
    var a := Apply(s, BeginPoll);
    var b := Apply(a, PollDrain(0, true));
    RunSteps(s, steps);
    RunSteps(a, steps[1..]);
    RunSteps(b, steps[1..][1..]);
    RunNothing(Apply(b, PollExchange), steps[1..][1..][1..]);
  }

  /** A parked consumer is woken by a token, takes it and the latch, and answers everybody who waited. */
  lemma TokenWakes(s: State, taken: nat)
    requires !IsClosed(s) && s.consumer == Parked && 0 < taken <= s.tokens
    ensures var t := Run(s, [Wake(false), WakeDrain(taken, false), WakeExchange]);
            && t.consumer == Idle && !t.pending && t.waiting == {} && t.answered == s.answered + s.waiting
            && t.tokens == s.tokens - taken && t.producers == s.producers
  {
    hide Run;
    var steps := [Wake(false), WakeDrain(taken, false), WakeExchange];
    var a := Apply(s, Wake(false));
    var b := Apply(a, WakeDrain(taken, false));
    RunSteps(s, steps);
    RunSteps(a, steps[1..]);
    RunSteps(b, steps[1..][1..]);
    RunNothing(Apply(b, WakeExchange), steps[1..][1..][1..]);
  }

  /** On a closed notification no wait begins, suspends or goes on, and nothing is taken. */
  lemma ClosedWaitEnds(s: State, error: bool)
    requires IsClosed(s)
    ensures s.consumer == Idle ==> Apply(s, BeginPoll) == s
    ensures s.consumer == Missed ==> Apply(s, Park) == s.(consumer := Idle)
    ensures s.consumer == Parked ==> Enabled(s, Wake(error)) && Apply(s, Wake(error)) == s.(consumer := Idle)
  {
  }

  lemma SentByNow(s: State, id: nat)
    requires Inv(s) && id in s.producers
    ensures SentOk(s.producers[id], id in s.sent, IsClosed(s))
  {
  }

  // ----- the notification object: one method per atomic operation

  class NotificationState {
    const capacity: nat
    var activity: nat               // closed bit and producer count
    var pending: bool
    var tokens: nat                 // in the native channel
    var calls: map<nat, Producer>   // each notify() call's progress
    var consumer: Consumer
    ghost var s: State

    ghost predicate Valid()
      reads this
    {
      && Inv(s) && capacity == s.capacity && activity == s.activity && pending == s.pending && tokens == s.tokens
      && calls == s.producers && consumer == s.consumer
    }

    constructor (capacity: nat)
      requires capacity > 0
      ensures Valid() && s == Initial(capacity)
    {
      this.capacity := capacity;
      activity, pending, tokens, calls, consumer := 0, false, 0, map[], Idle;
      s := Initial(capacity);
      new;
      assert Inside(map[]) == {};
    }

    /** enter_producer: the compare-exchange that succeeds, or the load that sees the closed bit. */
    method EnterProducer(id: nat) returns (entered: bool)
      requires Valid() && Enabled(s, Enter(id))
      modifies this
      ensures Valid() && s == Apply(old(s), Enter(id)) && entered == !IsClosed(old(s))
    {
      hide Inv;
      StepKeeps(s, Enter(id));
      entered := activity < CLOSED;
      if entered {
        activity := activity + 1;
        calls := calls[id := Entered];
      } else {
        calls := calls[id := Returned(Closed)];
      }
      s := Apply(s, Enter(id));
    }

    /** pending_.exchange(true). */
    method SetLatch(id: nat) returns (was: bool)
      requires Valid() && Enabled(s, Exchange(id))
      modifies this
      ensures Valid() && s == Apply(old(s), Exchange(id)) && was == old(pending)
    {
      hide Inv;
      StepKeeps(s, Exchange(id));
      was := pending;
      pending := true;
      calls := calls[id := if was then Covered else Won];
      s := Apply(s, Exchange(id));
    }

    /** is_closed, wherever notify() consults it. */
    method Recheck(id: nat)
      requires Valid() && Enabled(s, CheckOpen(id))
      modifies this
      ensures Valid() && s == Apply(old(s), CheckOpen(id))
      ensures !IsClosed(s) ==> s.producers[id] == (if id in s.sent then Leaving(Notified)
                                                   else if old(s).producers[id] == Won then Signaling
                                                   else Leaving(Coalesced))
    {
      hide Inv;
      StepKeeps(s, CheckOpen(id));
      SentByNow(s, id);
      if activity >= CLOSED {
        calls := calls[id := Leaving(Closed)];
      } else {
        var call := calls[id];
        calls := calls[id := if call.Won? then Signaling
                             else if call == Signaled(false) then Leaving(Notified)
                             else Leaving(Coalesced)];
      }
      s := Apply(s, CheckOpen(id));
    }

    /** native_wake_pair::signal. */
    method SignalNative(id: nat) returns (full: bool)
      requires Valid() && Enabled(s, Signal(id))
      modifies this
      ensures Valid() && s == Apply(old(s), Signal(id)) && full == (old(tokens) == capacity)
    {
      hide Inv;
      StepKeeps(s, Signal(id));
      ChannelIsBounded(s);
      full := tokens == capacity;
      if !full {
        tokens := tokens + 1;
      }
      calls := calls[id := Signaled(full)];
      s := Apply(s, Signal(id));
    }

    /** leave_producer: the count never underflows. */
    method LeaveProducer(id: nat) returns (status: Status)
      requires Valid() && Enabled(s, Leave(id))
      modifies this
      ensures Valid() && s == Apply(old(s), Leave(id)) && s.producers[id] == Returned(status)
      ensures activity == old(activity) - 1 && old(activity) % CLOSED > 0
    {
      StepKeeps(s, Leave(id));
      assert id in Inside(s.producers);
      status := calls[id].status;
      activity := activity - 1;
      calls := calls[id := Returned(status)];
      s := Apply(s, Leave(id));
    }

    /** The start of wait_ready. */
    method BeginPolling() returns (open: bool)
      requires Valid() && consumer == Idle
      modifies this
      ensures Valid() && s == Apply(old(s), BeginPoll) && open == !IsClosed(old(s))
    {
      hide Inv;
      StepKeeps(s, BeginPoll);
      open := activity < CLOSED;
      if open {
        consumer := Polling;
      }
      s := Apply(s, BeginPoll);
    }

    /** drain_native_receiver, in wait_ready or in complete_wait. */
    method DrainReceiver(taken: nat, error: bool)
      requires Valid() && (consumer == Polling || consumer == Woken) && (error || tokens == 0 || 0 < taken <= tokens)
      modifies this
      ensures Valid()
      ensures s == if old(consumer) == Polling then Apply(old(s), PollDrain(taken, error))
              else Apply(old(s), WakeDrain(taken, error))
    {
      hide Inv;
      ghost var step := if consumer == Polling then PollDrain(taken, error) else WakeDrain(taken, error);
      StepKeeps(s, step);
      var received := !error && tokens > 0;
      if received {
        tokens := tokens - taken;
      }
      consumer := if consumer == Polling then Polled(received, error) else Drained(error);
      s := Apply(s, step);
    }

    /** pending_.exchange(false): the wait ends unless wait_ready found nothing. */
    method TakeLatch() returns (ready: bool)
      requires Valid() && (consumer.Polled? || consumer.Drained?)
      modifies this
      ensures Valid() && s == Apply(old(s), if old(consumer).Polled? then PollExchange else WakeExchange)
      ensures !pending && (if ready then consumer == Idle else consumer == Missed)
      ensures !ready ==> !old(pending) && old(consumer) == Polled(false, false)
    {
      hide Inv;
      ghost var step := if consumer.Polled? then PollExchange else WakeExchange;
      StepKeeps(s, step);
      ready := consumer.Drained? || consumer.error || consumer.received || pending;
      pending := false;
      consumer := if ready then Idle else Missed;
      s := Apply(s, step);
    }

    /** The start of complete_wait: the channel became readable, or the wait was
        cancelled by close(), or it failed. */
    method NativeWaitEnded(error: bool) returns (open: bool)
      requires Valid() && Enabled(s, Wake(error))
      modifies this
      ensures Valid() && s == Apply(old(s), Wake(error)) && open == !IsClosed(old(s))
    {
      hide Inv;
      StepKeeps(s, Wake(error));
      open := activity < CLOSED;
      consumer := if open && !error then Woken else Idle;
      s := Apply(s, Wake(error));
    }

    /** begin_wait. */
    method BeginWait() returns (suspended: bool)
      requires Valid() && consumer == Missed
      modifies this
      ensures Valid() && s == Apply(old(s), Park) && suspended == !IsClosed(old(s))
    {
      hide Inv;
      StepKeeps(s, Park);
      suspended := activity < CLOSED;
      consumer := if suspended then Parked else Idle;
      s := Apply(s, Park);
    }

    method Close()
      requires Valid() && (consumer == Idle || consumer == Parked)
      modifies this
      ensures Valid() && s == Apply(old(s), Step.Close) && IsClosed(s)
    {
      hide Inv;
      StepKeeps(s, Step.Close);
      if activity < CLOSED {
        activity := activity + CLOSED;
      }
      s := Apply(s, Step.Close);
    }
  }
}
