/**
  The worker's poll loop and its pool: one poller and a fixed number of workers around a bounded
  channel.  Each counter update, channel operation and handler call is an atomic step; the poller
  and the workers interleave in any order.  Messages are known by an opaque identity and may repeat.
 */
module KafkaConsumer {

  type Msg = int

  datatype Config = Config(capacity: nat, workers: nat, hasDlq: bool)

  const DEFAULT_WORKER_COUNT := 4
  const DEFAULT_QUEUE_CAPACITY := 100

  /** NewWorkerPool: non-positive settings fall back to the defaults. */
  function PoolConfig(workers: int, capacity: int, hasDlq: bool): (cfg: Config)
    ensures cfg.workers > 0 && cfg.capacity > 0 && cfg.hasDlq == hasDlq
    ensures cfg.workers == (if workers > 0 then workers else 4) && cfg.capacity == (if capacity > 0 then capacity else 100)
  {
    Config(if capacity <= 0 then DEFAULT_QUEUE_CAPACITY else capacity,
           if workers <= 0 then DEFAULT_WORKER_COUNT else workers, hasDlq)
  }

  datatype Stats = Stats(
    seen: nat, processed: nat, errors: nat, kafkaErrors: nat,
    enqueued: nat, fullErrors: nat, deadLetters: nat, deadLetterErrors: nat)

  /** Where the poll goroutine is in Run and enqueueKafkaMessage. */
  datatype Poller =
    | Polling
    | Decoding(msg: Msg, valid: bool)
    | Retrying(msg: Msg)     // the queue was full once; about to try again after the back-off
    | Rejected(msg: Msg)     // the queue was full; about to count it
    | Counting               // enqueued; about to count it
    | DeadLettering          // a decoding failure was counted; about to publish it
    | Draining               // channel closed, waiting for the workers
    | Returned

  datatype Worker =
    | Idle
    | Handling(msg: Msg)
    | Succeeding(msg: Msg)   // handled; about to count it
    | Failing(msg: Msg)      // the handler failed; about to count it
    | WorkerDeadLettering    // a failure was counted; about to publish it
    | Exited

  /** Histories are kept per message so that nothing can be counted twice or lost. */
  datatype Machine = Machine(
    poller: Poller, workers: seq<Worker>, queue: seq<Msg>, stats: Stats,
    seen: seq<Msg>, processed: seq<Msg>, undecodable: seq<Msg>, failed: seq<Msg>, dropped: seq<Msg>)

  datatype Action =
    | Poll(msg: Msg, valid: bool)
    | PollError
    | Cancel
    | PollerStep(dlqOk: bool)
    | WorkerStep(worker: nat, handled: bool, dlqOk: bool)

  function Initial(cfg: Config): Machine {
    Machine(Polling, seq(cfg.workers, _ => Idle), [], Stats(0, 0, 0, 0, 0, 0, 0, 0), [], [], [], [], [])
  }

  predicate Closed(m: Machine) {
    m.poller.Draining? || m.poller.Returned?
  }

  predicate AllExited(workers: seq<Worker>) {
    forall i :: 0 <= i < |workers| ==> workers[i].Exited?
  }

  /** A non-blocking send: full means refused. */
  predicate Fits(cfg: Config, queue: seq<Msg>) {
    |queue| < cfg.capacity
  }

  function PublishDeadLetter(s: Stats, ok: bool): Stats {
    if ok then s.(deadLetters := s.deadLetters + 1) else s.(deadLetterErrors := s.deadLetterErrors + 1)
  }

  function NextPoller(cfg: Config, m: Machine, dlqOk: bool): Machine {
    match m.poller
    case Decoding(msg, valid) =>
      if !valid then
        m.(stats := m.stats.(errors := m.stats.errors + 1), undecodable := m.undecodable + [msg],
           poller := if cfg.hasDlq then DeadLettering else Polling)
      else if Fits(cfg, m.queue) then m.(queue := m.queue + [msg], poller := Counting)
      else m.(poller := Rejected(msg))
    case Rejected(msg) =>
      m.(stats := m.stats.(fullErrors := m.stats.fullErrors + 1), poller := Retrying(msg))
    case Retrying(msg) =>
      if Fits(cfg, m.queue) then m.(queue := m.queue + [msg], poller := Counting)
      else m.(dropped := m.dropped + [msg], poller := Polling)
    case Counting => m.(stats := m.stats.(enqueued := m.stats.enqueued + 1), poller := Polling)
    case DeadLettering => m.(stats := PublishDeadLetter(m.stats, dlqOk), poller := Polling)
    case Draining => if AllExited(m.workers) then m.(poller := Returned) else m
    case _ => m
  }

  function NextWorker(cfg: Config, m: Machine, i: nat, handled: bool, dlqOk: bool): Machine
    requires i < |m.workers|
  {
    match m.workers[i]
    case Idle =>
      if m.queue != [] then m.(queue := m.queue[1..], workers := m.workers[i := Handling(m.queue[0])])
      else if Closed(m) then m.(workers := m.workers[i := Exited])
      else m
    case Handling(msg) => m.(workers := m.workers[i := if handled then Succeeding(msg) else Failing(msg)])
    case Succeeding(msg) =>
      m.(stats := m.stats.(processed := m.stats.processed + 1), processed := m.processed + [msg],
         workers := m.workers[i := Idle])
    case Failing(msg) =>
      m.(stats := m.stats.(errors := m.stats.errors + 1), failed := m.failed + [msg],
         workers := m.workers[i := if cfg.hasDlq then WorkerDeadLettering else Idle])
    case WorkerDeadLettering =>
      m.(stats := PublishDeadLetter(m.stats, dlqOk), workers := m.workers[i := Idle])
    case Exited => m
  }

  /** Polls only happen between messages; an action that cannot happen changes nothing. */
  function Next(cfg: Config, m: Machine, a: Action): Machine {
    match a
    case Poll(msg, valid) =>
      if m.poller.Polling?
      then m.(stats := m.stats.(seen := m.stats.seen + 1), seen := m.seen + [msg], poller := Decoding(msg, valid))
      else m
    case PollError =>
      if m.poller.Polling? then m.(stats := m.stats.(kafkaErrors := m.stats.kafkaErrors + 1), poller := Draining) else m
    case Cancel => if m.poller.Polling? then m.(poller := Draining) else m
    case PollerStep(dlqOk) => NextPoller(cfg, m, dlqOk)
    case WorkerStep(i, handled, dlqOk) => if i < |m.workers| then NextWorker(cfg, m, i, handled, dlqOk) else m
  }

  // ----- Where messages are -----

  /** How often a message occurs in a history or queue. */
  function Times(msgs: seq<Msg>, x: Msg): nat {
    multiset(msgs)[x]
  }

  function Is(msg: Msg, x: Msg): nat {
    if msg == x then 1 else 0
  }

  lemma TimesAppend(msgs: seq<Msg>, msg: Msg, x: Msg)
    ensures Times(msgs + [msg], x) == Times(msgs, x) + Is(msg, x)
  {
  }

  lemma TimesHead(msgs: seq<Msg>, x: Msg)
    requires msgs != []
    ensures Times(msgs, x) == Is(msgs[0], x) + Times(msgs[1..], x)
  {
    assert msgs == [msgs[0]] + msgs[1..];
  }

  function HoldsMsg(w: Worker, x: Msg): nat {
    match w
    case Handling(msg) => Is(msg, x)
    case Succeeding(msg) => Is(msg, x)
    case Failing(msg) => Is(msg, x)
    case _ => 0
  }

  function Holds(w: Worker): nat {
    if w.Handling? || w.Succeeding? || w.Failing? then 1 else 0
  }

  function Owing(w: Worker): nat {
    if w.WorkerDeadLettering? then 1 else 0
  }

  /** Copies of a message in the workers' hands. */
  function InHands(workers: seq<Worker>, x: Msg): nat {
    if workers == [] then 0 else InHands(workers[..|workers| - 1], x) + HoldsMsg(workers[|workers| - 1], x)
  }

  /** Messages in the workers' hands. */
  function Held(workers: seq<Worker>): nat {
    if workers == [] then 0 else Held(workers[..|workers| - 1]) + Holds(workers[|workers| - 1])
  }

  /** Workers that still have to publish a counted failure. */
  function Owed(workers: seq<Worker>): nat {
    if workers == [] then 0 else Owed(workers[..|workers| - 1]) + Owing(workers[|workers| - 1])
  }

  lemma {:induction false} UpdateWorker(workers: seq<Worker>, i: nat, w: Worker, x: Msg)
    requires i < |workers|
    ensures InHands(workers[i := w], x) + HoldsMsg(workers[i], x) == InHands(workers, x) + HoldsMsg(w, x)
    ensures Held(workers[i := w]) + Holds(workers[i]) == Held(workers) + Holds(w)
    ensures Owed(workers[i := w]) + Owing(workers[i]) == Owed(workers) + Owing(w)
  {
    var n := |workers| - 1;
    if i == n {
      assert workers[i := w][..n] == workers[..n];
    } else {
      UpdateWorker(workers[..n], i, w, x);
      assert workers[i := w][..n] == workers[..n][i := w];
    }
  }

  /** A worker holds at most one message, and none once it has exited. */
  lemma {:induction false} HeldAtMostOneEach(workers: seq<Worker>, x: Msg)
    ensures Held(workers) <= |workers|
    ensures AllExited(workers) ==> Held(workers) == Owed(workers) == InHands(workers, x) == 0
  {
    if workers != [] {
      HeldAtMostOneEach(workers[..|workers| - 1], x);
    }
  }

  lemma {:induction false} IdleHoldsNothing(n: nat, x: Msg)
    ensures var workers := seq(n, _ => Idle);
      Held(workers) == Owed(workers) == InHands(workers, x) == 0
  {
    if n > 0 {
      IdleHoldsNothing(n - 1, x);
      assert seq(n, _ => Idle)[..n - 1] == seq(n - 1, _ => Idle);
    }
  }

  function HeldByPoller(p: Poller, x: Msg): nat {
    match p
    case Decoding(msg, _) => Is(msg, x)
    case Retrying(msg) => Is(msg, x)
    case Rejected(msg) => Is(msg, x)
    case _ => 0
  }

  /** Copies of a message that have ended: processed, failed or dropped. */
  function Settled(m: Machine, x: Msg): nat {
    Times(m.processed, x) + Times(m.undecodable, x) + Times(m.failed, x) + Times(m.dropped, x)
  }

  function Located(m: Machine, x: Msg): nat {
    Settled(m, x) + HeldByPoller(m.poller, x) + Times(m.queue, x) + InHands(m.workers, x)
  }

  // ----- The invariant -----

  /** Every message seen is in exactly one place. */
  ghost predicate Accounted(m: Machine) {
    forall x :: Times(m.seen, x) == Located(m, x)
  }

  ghost predicate Counted(cfg: Config, m: Machine) {
    && m.stats.seen == |m.seen|
    && m.stats.processed == |m.processed|
    && m.stats.errors == |m.undecodable| + |m.failed|
    && m.stats.enqueued + (if m.poller.Counting? then 1 else 0) == |m.processed| + |m.failed| + |m.queue| + Held(m.workers)
    && |m.dropped| + (if m.poller.Retrying? then 1 else 0) <= m.stats.fullErrors
    && (cfg.hasDlq ==>
          m.stats.deadLetters + m.stats.deadLetterErrors + Owed(m.workers) + (if m.poller.DeadLettering? then 1 else 0) == m.stats.errors)
    && (!cfg.hasDlq ==> m.stats.deadLetters == m.stats.deadLetterErrors == Owed(m.workers) == 0 && !m.poller.DeadLettering?)
  }

  ghost predicate Shaped(cfg: Config, m: Machine) {
    && |m.workers| == cfg.workers && |m.queue| <= cfg.capacity
    && (forall i :: 0 <= i < |m.workers| && m.workers[i].Exited? ==> Closed(m) && m.queue == [])
    && (m.poller.Returned? ==> AllExited(m.workers))
  }

  ghost predicate Valid(cfg: Config, m: Machine) {
    Accounted(m) && Counted(cfg, m) && Shaped(cfg, m)
  }

  /** A poller action neither loses nor copies a message. */
  lemma PollerMoves(cfg: Config, m: Machine, dlqOk: bool, x: Msg)
    ensures Located(NextPoller(cfg, m, dlqOk), x) == Located(m, x)
    ensures NextPoller(cfg, m, dlqOk).seen == m.seen
  {
    hide Times, InHands;
    match m.poller {
      case Decoding(msg, valid) =>
        TimesAppend(m.undecodable, msg, x);
        TimesAppend(m.queue, msg, x);
      case Retrying(msg) =>
        TimesAppend(m.dropped, msg, x);
        TimesAppend(m.queue, msg, x);
      case _ =>
    }
  }

  lemma WorkerMoves(cfg: Config, m: Machine, i: nat, handled: bool, dlqOk: bool, x: Msg)
    requires i < |m.workers|
    ensures Located(NextWorker(cfg, m, i, handled, dlqOk), x) == Located(m, x)
    ensures NextWorker(cfg, m, i, handled, dlqOk).seen == m.seen
  {
    hide Times, InHands, Held, Owed;
    WorkerUpdate(cfg, m, i, handled, dlqOk, x);
    match m.workers[i] {
      case Idle => if m.queue != [] { TimesHead(m.queue, x); }
      case Succeeding(msg) => TimesAppend(m.processed, msg, x);
      case Failing(msg) => TimesAppend(m.failed, msg, x);
      case _ =>
    }
  }

  /** A worker action changes one worker, and the sums over workers by that worker's share. */
  lemma WorkerUpdate(cfg: Config, m: Machine, i: nat, handled: bool, dlqOk: bool, x: Msg)
    requires i < |m.workers|
    ensures var m' := NextWorker(cfg, m, i, handled, dlqOk);
      && |m'.workers| == |m.workers|
      && (forall j :: 0 <= j < |m.workers| && j != i ==> m'.workers[j] == m.workers[j])
      && InHands(m'.workers, x) + HoldsMsg(m.workers[i], x) == InHands(m.workers, x) + HoldsMsg(m'.workers[i], x)
      && Held(m'.workers) + Holds(m.workers[i]) == Held(m.workers) + Holds(m'.workers[i])
      && Owed(m'.workers) + Owing(m.workers[i]) == Owed(m.workers) + Owing(m'.workers[i])
  {
    hide InHands, Held, Owed, HoldsMsg, Holds, Owing, PublishDeadLetter;
    var m' := NextWorker(cfg, m, i, handled, dlqOk);
    UpdateWorker(m.workers, i, m'.workers[i], x);
    if m'.workers != m.workers {
      assert m'.workers == m.workers[i := m'.workers[i]];
    }
  }

  lemma PollMoves(cfg: Config, m: Machine, a: Action, x: Msg)
    requires a.Poll? || a.PollError? || a.Cancel?
    ensures Times(Next(cfg, m, a).seen, x) + Located(m, x) == Times(m.seen, x) + Located(Next(cfg, m, a), x)
  {
    hide Times, InHands;
    if a.Poll? {
      TimesAppend(m.seen, a.msg, x);
    }
  }

  lemma StepAccounted(cfg: Config, m: Machine, a: Action)
    requires Accounted(m)
    ensures Accounted(Next(cfg, m, a))
  {
    hide Times, Located;
    var m' := Next(cfg, m, a);
    forall x ensures Times(m'.seen, x) == Located(m', x) {
      assert Times(m.seen, x) == Located(m, x);
      match a {
        case PollerStep(dlqOk) => PollerMoves(cfg, m, dlqOk, x);
        case WorkerStep(i, handled, dlqOk) => if i < |m.workers| { WorkerMoves(cfg, m, i, handled, dlqOk, x); }
        case Poll(_, _) => PollMoves(cfg, m, a, x);
        case PollError => PollMoves(cfg, m, a, x);
        case Cancel => PollMoves(cfg, m, a, x);
      }
    }
  }

  lemma WorkerCounted(cfg: Config, m: Machine, i: nat, handled: bool, dlqOk: bool)
    requires Counted(cfg, m) && Shaped(cfg, m) && i < |m.workers|
    ensures Counted(cfg, NextWorker(cfg, m, i, handled, dlqOk)) && Shaped(cfg, NextWorker(cfg, m, i, handled, dlqOk))
  {
    hide Held, Owed, InHands, HoldsMsg;
    WorkerUpdate(cfg, m, i, handled, dlqOk, 0);
  }

  lemma StepCounted(cfg: Config, m: Machine, a: Action)
    requires Counted(cfg, m) && Shaped(cfg, m)
    ensures Counted(cfg, Next(cfg, m, a)) && Shaped(cfg, Next(cfg, m, a))
  {
    hide Held, Owed, NextWorker;
    if a.WorkerStep? && a.worker < |m.workers| {
      WorkerCounted(cfg, m, a.worker, a.handled, a.dlqOk);
    }
  }

  lemma StepKeeps(cfg: Config, m: Machine, a: Action)
    requires Valid(cfg, m)
    ensures Valid(cfg, Next(cfg, m, a))
  {
    hide Accounted, Counted, Shaped, Next;
    StepAccounted(cfg, m, a);
    StepCounted(cfg, m, a);
  }

  /** At every step the items enqueued but not finished fit in the queue and the workers' hands. */
  lemma InFlightBound(cfg: Config, m: Machine)
    requires Valid(cfg, m)
    ensures |m.queue| + Held(m.workers) <= cfg.capacity + cfg.workers
    ensures m.stats.enqueued <= m.stats.processed + |m.failed| + cfg.capacity + cfg.workers
  {
    HeldAtMostOneEach(m.workers, 0);
  }

  /** What the counters say when Run has returned. */
  ghost predicate FinalCounts(cfg: Config, m: Machine) {
    && multiset(m.seen) == multiset(m.processed) + multiset(m.undecodable) + multiset(m.failed) + multiset(m.dropped)
    && m.stats.seen == m.stats.processed + m.stats.errors + |m.dropped|
    && |m.dropped| <= m.stats.fullErrors
    && m.stats.enqueued == m.stats.processed + |m.failed|
    && (cfg.hasDlq ==> m.stats.deadLetters + m.stats.deadLetterErrors == m.stats.errors)
  }

  lemma AllSettled(m: Machine)
    requires Accounted(m) && AllExited(m.workers) && m.queue == [] && m.poller.Returned?
    ensures multiset(m.seen) == multiset(m.processed) + multiset(m.undecodable) + multiset(m.failed) + multiset(m.dropped)
  {
    var all := multiset(m.processed) + multiset(m.undecodable) + multiset(m.failed) + multiset(m.dropped);
    forall x ensures multiset(m.seen)[x] == all[x] {
      HeldAtMostOneEach(m.workers, x);
      assert Times(m.seen, x) == Located(m, x);
    }
  }

  lemma ReturnedCounts(cfg: Config, m: Machine)
    requires Valid(cfg, m) && m.poller.Returned? && cfg.workers > 0
    ensures FinalCounts(cfg, m)
  {
    HeldAtMostOneEach(m.workers, 0);
    assert m.workers[0].Exited?;
    AllSettled(m);
    var all := multiset(m.processed) + multiset(m.undecodable) + multiset(m.failed) + multiset(m.dropped);
    assert |multiset(m.seen)| == |m.seen| && |all| == |m.processed| + |m.undecodable| + |m.failed| + |m.dropped|;
  }

  // ----- What the counters count -----

  /** What happened outside the machine: how handlers, dead-letter publishes, decoding and the broker answered. */
  datatype Effects = Effects(
    succeeded: nat, failed: nat, deadLettered: nat, deadLetterFailed: nat, undecodable: nat, brokerErrors: nat, refused: nat) {
    function Plus(e: Effects): Effects {
      Effects(succeeded + e.succeeded, failed + e.failed, deadLettered + e.deadLettered,
              deadLetterFailed + e.deadLetterFailed, undecodable + e.undecodable, brokerErrors + e.brokerErrors, refused + e.refused)
    }
  }

  function One(b: bool): nat {
    if b then 1 else 0
  }

  /** Read off the state before an action and the action's answers. */
  function EffectOf(cfg: Config, m: Machine, a: Action): Effects {
    var handling := a.WorkerStep? && a.worker < |m.workers| && m.workers[a.worker].Handling?;
    var publishing :=
      || (a.WorkerStep? && a.worker < |m.workers| && m.workers[a.worker].WorkerDeadLettering?)
      || (a.PollerStep? && m.poller.DeadLettering?);
    Effects(
      One(handling && a.handled), One(handling && !a.handled),
      One(publishing && a.dlqOk), One(publishing && !a.dlqOk),
      One(a.PollerStep? && m.poller.Decoding? && !m.poller.valid), One(a.PollError? && m.poller.Polling?),
      One(a.PollerStep? && m.poller.Decoding? && m.poller.valid && |m.queue| >= cfg.capacity))
  }

  function EffectsOf(cfg: Config, actions: seq<Action>): Effects {
    if actions == [] then Effects(0, 0, 0, 0, 0, 0, 0)
    else
      var n := |actions| - 1;
      EffectsOf(cfg, actions[..n]).Plus(EffectOf(cfg, RunOf(cfg, actions[..n]), actions[n]))
  }

  /** The worker has its handler's answer and is about to count it. */
  predicate Awaits(w: Worker, handled: bool) {
    if handled then w.Succeeding? else w.Failing?
  }

  function Awaiting(workers: seq<Worker>, handled: bool): nat {
    if workers == [] then 0 else Awaiting(workers[..|workers| - 1], handled) + One(Awaits(workers[|workers| - 1], handled))
  }

  lemma {:induction false} AwaitingUpdate(workers: seq<Worker>, i: nat, w: Worker, handled: bool)
    requires i < |workers|
    ensures Awaiting(workers[i := w], handled) + One(Awaits(workers[i], handled)) == Awaiting(workers, handled) + One(Awaits(w, handled))
  {
    var n := |workers| - 1;
    if i == n {
      assert workers[i := w][..n] == workers[..n];
    } else {
      AwaitingUpdate(workers[..n], i, w, handled);
      assert workers[i := w][..n] == workers[..n][i := w];
    }
  }

  lemma {:induction false} NoneAwaits(workers: seq<Worker>, handled: bool)
    requires forall i :: 0 <= i < |workers| ==> !Awaits(workers[i], handled)
    ensures Awaiting(workers, handled) == 0
  {
    if workers != [] {
      NoneAwaits(workers[..|workers| - 1], handled);
    }
  }

  /** Processed messages are those whose handler succeeded, failed ones those whose handler failed, and so on. */
  ghost predicate Measured(m: Machine, e: Effects) {
    && |m.processed| + Awaiting(m.workers, true) == e.succeeded
    && |m.failed| + Awaiting(m.workers, false) == e.failed
    && m.stats.deadLetters == e.deadLettered && m.stats.deadLetterErrors == e.deadLetterFailed
    && |m.undecodable| == e.undecodable && m.stats.kafkaErrors == e.brokerErrors
    && m.stats.fullErrors + One(m.poller.Rejected?) == e.refused
  }

  lemma WorkerMeasured(cfg: Config, m: Machine, i: nat, handled: bool, dlqOk: bool, e: Effects)
    requires Measured(m, e) && i < |m.workers|
    ensures Measured(NextWorker(cfg, m, i, handled, dlqOk), e.Plus(EffectOf(cfg, m, WorkerStep(i, handled, dlqOk))))
  {
    hide Awaiting;
    var m' := NextWorker(cfg, m, i, handled, dlqOk);
    AwaitingUpdate(m.workers, i, m'.workers[i], true);
    AwaitingUpdate(m.workers, i, m'.workers[i], false);
    if m'.workers != m.workers {
      assert m'.workers == m.workers[i := m'.workers[i]];
    }
  }

  lemma StepMeasured(cfg: Config, m: Machine, a: Action, e: Effects)
    requires Measured(m, e)
    ensures Measured(Next(cfg, m, a), e.Plus(EffectOf(cfg, m, a)))
  {
    hide Awaiting;
    if a.WorkerStep? && a.worker < |m.workers| {
      WorkerMeasured(cfg, m, a.worker, a.handled, a.dlqOk, e);
    }
    hide NextWorker;
  }

  lemma {:induction false} RunMeasured(cfg: Config, actions: seq<Action>)
    ensures Measured(RunOf(cfg, actions), EffectsOf(cfg, actions))
  {
    if actions == [] {
      NoneAwaits(Initial(cfg).workers, true);
      NoneAwaits(Initial(cfg).workers, false);
    } else {
      hide Measured, Next, EffectOf;
      var n := |actions| - 1;
      RunMeasured(cfg, actions[..n]);
      StepMeasured(cfg, RunOf(cfg, actions[..n]), actions[n], EffectsOf(cfg, actions[..n]));
    }
  }

  /** Once Run has returned, the counters are exactly what the handlers, the DLQ and the broker answered. */
  lemma CountersMeanAnswers(cfg: Config, actions: seq<Action>)
    requires Valid(cfg, RunOf(cfg, actions)) && RunOf(cfg, actions).poller.Returned?
    ensures var stats, e := RunOf(cfg, actions).stats, EffectsOf(cfg, actions);
      && stats.processed == e.succeeded && stats.errors == e.undecodable + e.failed
      && stats.deadLetters == e.deadLettered && stats.deadLetterErrors == e.deadLetterFailed
      && stats.kafkaErrors == e.brokerErrors && stats.fullErrors == e.refused
  {
    var m := RunOf(cfg, actions);
    RunMeasured(cfg, actions);
    hide RunOf, EffectsOf, Held, Owed, Accounted;
    NoneAwaits(m.workers, true);
    NoneAwaits(m.workers, false);
  }

  // ----- The channel is first in, first out -----

  /** The message an action puts on the channel, if any. */
  function Entering(cfg: Config, m: Machine, a: Action): seq<Msg> {
    if Next(cfg, m, a).poller.Counting? && !m.poller.Counting? && (m.poller.Decoding? || m.poller.Retrying?) then [m.poller.msg] else []
  }

  /** The message an action hands to a worker, if any. */
  function Leaving(cfg: Config, m: Machine, a: Action): seq<Msg> {
    if a.WorkerStep? && a.worker < |m.workers| && |Next(cfg, m, a).workers| == |m.workers|
       && m.workers[a.worker].Idle? && Next(cfg, m, a).workers[a.worker].Handling?
    then [Next(cfg, m, a).workers[a.worker].msg] else []
  }

  function Entered(cfg: Config, actions: seq<Action>): seq<Msg> {
    if actions == [] then []
    else
      var n := |actions| - 1;
      Entered(cfg, actions[..n]) + Entering(cfg, RunOf(cfg, actions[..n]), actions[n])
  }

  function Left(cfg: Config, actions: seq<Action>): seq<Msg> {
    if actions == [] then []
    else
      var n := |actions| - 1;
      Left(cfg, actions[..n]) + Leaving(cfg, RunOf(cfg, actions[..n]), actions[n])
  }

  /** A worker takes from the front, or leaves the channel alone; it does not move the poller. */
  lemma WorkerTakes(cfg: Config, m: Machine, i: nat, handled: bool, dlqOk: bool)
    requires i < |m.workers|
    ensures var m' := NextWorker(cfg, m, i, handled, dlqOk);
      && m'.poller == m.poller && |m'.workers| == |m.workers|
      && m.queue == (if m.workers[i].Idle? && m'.workers[i].Handling? then [m'.workers[i].msg] else []) + m'.queue
  {
    assert m.queue != [] ==> m.queue == [m.queue[0]] + m.queue[1..];
  }

  /** The poller appends, or leaves the channel alone. */
  lemma PollerPuts(cfg: Config, m: Machine, dlqOk: bool)
    ensures var m' := NextPoller(cfg, m, dlqOk);
      m'.queue == m.queue +
        if m'.poller.Counting? && !m.poller.Counting? && (m.poller.Decoding? || m.poller.Retrying?) then [m.poller.msg] else []
  {
  }

  lemma StepFifo(cfg: Config, m: Machine, a: Action)
    ensures m.queue + Entering(cfg, m, a) == Leaving(cfg, m, a) + Next(cfg, m, a).queue
  {
    hide NextWorker, NextPoller;
    match a {
      case WorkerStep(i, handled, dlqOk) => if i < |m.workers| { WorkerTakes(cfg, m, i, handled, dlqOk); }
      case PollerStep(dlqOk) => PollerPuts(cfg, m, dlqOk);
      case _ =>
    }
  }

  /** Workers receive the messages in the order in which they were enqueued. */
  lemma {:induction false} ChannelIsFifo(cfg: Config, actions: seq<Action>)
    ensures Entered(cfg, actions) == Left(cfg, actions) + RunOf(cfg, actions).queue
  {
    if actions != [] {
      var n := |actions| - 1;
      var m, a := RunOf(cfg, actions[..n]), actions[n];
      ChannelIsFifo(cfg, actions[..n]);
      StepFifo(cfg, m, a);
      hide Next, Entering, Leaving;
      FifoJoin(Entered(cfg, actions[..n]), Left(cfg, actions[..n]), m.queue, Entering(cfg, m, a), Leaving(cfg, m, a), Next(cfg, m, a).queue);
    }
  }

  lemma FifoJoin(entered: seq<Msg>, left: seq<Msg>, queue: seq<Msg>, entering: seq<Msg>, leaving: seq<Msg>, queue': seq<Msg>)
    requires entered == left + queue && queue + entering == leaving + queue'
    ensures entered + entering == (left + leaving) + queue'
  {
    assert entered + entering == left + (queue + entering);
    assert (left + leaving) + queue' == left + (leaving + queue');
  }

  function RunOf(cfg: Config, actions: seq<Action>): Machine {
    if actions == [] then Initial(cfg)
    else Next(cfg, RunOf(cfg, actions[..|actions| - 1]), actions[|actions| - 1])
  }

  lemma InitialValid(cfg: Config)
    ensures Valid(cfg, Initial(cfg))
  {
    forall x ensures Times(Initial(cfg).seen, x) == Located(Initial(cfg), x) {
      IdleHoldsNothing(cfg.workers, x);
    }
    IdleHoldsNothing(cfg.workers, 0);
  }

  /**
    Run under a scheduler that chooses who moves next.  Whatever it chooses, the in-flight bound
    holds throughout and, once Run has returned, every message is accounted for.
   */
  method Run(workers: int, capacity: int, hasDlq: bool, actions: seq<Action>) returns (m: Machine)
    ensures var cfg := PoolConfig(workers, capacity, hasDlq);
      && m == RunOf(cfg, actions) && Valid(cfg, m)
      && |m.queue| + Held(m.workers) <= cfg.capacity + cfg.workers
      && (m.poller.Returned? ==> FinalCounts(cfg, m))
      && Measured(m, EffectsOf(cfg, actions)) && Entered(cfg, actions) == Left(cfg, actions) + m.queue
      && (m.poller.Returned? ==>
            && m.stats.processed == EffectsOf(cfg, actions).succeeded
            && m.stats.errors == EffectsOf(cfg, actions).undecodable + EffectsOf(cfg, actions).failed)
  {
    var cfg := PoolConfig(workers, capacity, hasDlq);
    m := Initial(cfg);
    InitialValid(cfg);
    assert actions[..0] == [];
    hide Valid, Next;
    for i := 0 to |actions|
      invariant m == RunOf(cfg, actions[..i]) && Valid(cfg, m)
    {
      StepKeeps(cfg, m, actions[i]);
      assert actions[..i + 1][..i] == actions[..i];
      m := Next(cfg, m, actions[i]);
    }
    assert actions[..|actions|] == actions;
    hide Measured, EffectsOf, Entered, Left, RunOf;
    InFlightBound(cfg, m);
    RunMeasured(cfg, actions);
    ChannelIsFifo(cfg, actions);
    if m.poller.Returned? {
      ReturnedCounts(cfg, m);
      CountersMeanAnswers(cfg, actions);
    }
  }

  /** The pool's channel by itself. */
  class WorkerPool {
    const queueCapacity: nat
    var workCh: seq<Msg>

    constructor (capacity: int)
      ensures queueCapacity == PoolConfig(1, capacity, false).capacity && workCh == []
    {
      queueCapacity := if capacity <= 0 then DEFAULT_QUEUE_CAPACITY else capacity;
      workCh := [];
    }

    method Enqueue(item: Msg) returns (ok: bool)
      modifies this
      ensures ok <==> |old(workCh)| < queueCapacity
      ensures workCh == if ok then old(workCh) + [item] else old(workCh)
    {
      if |workCh| < queueCapacity {
        workCh := workCh + [item];
        return true;
      }
      return false;
    }
  }

  // ----- The poll goroutine's part, as it runs -----

  function RunFrom(cfg: Config, m: Machine, actions: seq<Action>): Machine
    decreases actions
  {
    if actions == [] then m else RunFrom(cfg, Next(cfg, m, actions[0]), actions[1..])
  }

  lemma {:induction false} RunAppend(cfg: Config, m: Machine, a: seq<Action>, b: seq<Action>)
    ensures RunFrom(cfg, m, a + b) == RunFrom(cfg, RunFrom(cfg, m, a), b)
    decreases a
  {
    if a == [] {
      assert a + b == b;
    } else {
      hide Next;
      RunAppend(cfg, Next(cfg, m, a[0]), a[1..], b);
      assert (a + b)[1..] == a[1..] + b;
    }
  }

  lemma OneStep(cfg: Config, m: Machine, a: Action)
    ensures RunFrom(cfg, m, [a]) == Next(cfg, m, a)
  {
    RunOneMore(cfg, m, [], a);
    assert [] + [a] == [a];
  }

  lemma RunOneMore(cfg: Config, m: Machine, trace: seq<Action>, a: Action)
    ensures RunFrom(cfg, m, trace + [a]) == Next(cfg, RunFrom(cfg, m, trace), a)
  {
    hide Next;
    RunAppend(cfg, m, trace, [a]);
    assert [a][1..] == [];
    var m' := RunFrom(cfg, m, trace);
    assert RunFrom(cfg, m', [a]) == RunFrom(cfg, Next(cfg, m', a), []);
  }

  // ----- Run can always be brought to its end -----

  function Work(w: Worker): nat {
    match w
    case Handling(_) => 4
    case Failing(_) => 3
    case Succeeding(_) => 2
    case WorkerDeadLettering => 2
    case Idle => 1
    case Exited => 0
  }

  function Load(workers: seq<Worker>): nat {
    if workers == [] then 0 else Load(workers[..|workers| - 1]) + Work(workers[|workers| - 1])
  }

  lemma {:induction false} LoadUpdate(workers: seq<Worker>, i: nat, w: Worker)
    requires i < |workers|
    ensures Load(workers[i := w]) + Work(workers[i]) == Load(workers) + Work(w)
  {
    var n := |workers| - 1;
    if i == n {
      assert workers[i := w][..n] == workers[..n];
    } else {
      LoadUpdate(workers[..n], i, w);
      assert workers[i := w][..n] == workers[..n][i := w];
    }
  }

  /** How far the poller is from waiting for the workers. */
  function ToGo(p: Poller): nat {
    match p
    case Decoding(_, _) => 5
    case Rejected(_) => 4
    case Retrying(_) => 3
    case Counting => 2
    case DeadLettering => 2
    case Polling => 1
    case Draining => 0
    case Returned => 0
  }

  /** While the channel is closed, a step of a worker that has not exited brings the end closer. */
  lemma WorkerProgress(cfg: Config, m: Machine, i: nat)
    requires i < |m.workers| && !m.workers[i].Exited? && m.poller.Draining?
    ensures var m' := NextWorker(cfg, m, i, true, true);
      m'.poller == m.poller && |m'.workers| == |m.workers| && 4 * |m'.queue| + Load(m'.workers) < 4 * |m.queue| + Load(m.workers)
  {
    hide Load;
    LoadUpdate(m.workers, i, NextWorker(cfg, m, i, true, true).workers[i]);
    assert NextWorker(cfg, m, i, true, true).workers == m.workers[i := NextWorker(cfg, m, i, true, true).workers[i]];
  }

  /** From every state, cancelling lets the poller finish its message, the workers drain the channel and exit, and Run return. */
  lemma {:induction false} CanReturn(cfg: Config, m: Machine) returns (actions: seq<Action>)
    ensures RunFrom(cfg, m, actions).poller.Returned?
    decreases ToGo(m.poller), 4 * |m.queue| + Load(m.workers)
  {
    actions := [];
    if !m.poller.Returned? {
      var a := PollerStep(true);
      if m.poller.Polling? {
        a := Cancel;
      } else if m.poller.Draining? && !AllExited(m.workers) {
        var i :| 0 <= i < |m.workers| && !m.workers[i].Exited?;
        WorkerProgress(cfg, m, i);
        a := WorkerStep(i, true, true);
      }
      var m' := Next(cfg, m, a);
      if m'.poller.Returned? {
        OneStep(cfg, m, a);
        actions := [a];
      } else {
        var rest := CanReturn(cfg, m');
        actions := [a] + rest;
        assert actions[1..] == rest;
      }
    }
  }

  predicate OnlyWorkers(actions: seq<Action>) {
    forall i :: 0 <= i < |actions| ==> actions[i].WorkerStep?
  }

  /** Workers do not move the poller, nor what it has seen, refused or dropped. */
  lemma {:induction false} WorkersOnly(cfg: Config, m: Machine, actions: seq<Action>)
    requires OnlyWorkers(actions)
    ensures var m' := RunFrom(cfg, m, actions);
      m'.poller == m.poller && m'.seen == m.seen && m'.undecodable == m.undecodable && m'.dropped == m.dropped
    decreases actions
  {
    if actions != [] {
      WorkersOnly(cfg, Next(cfg, m, actions[0]), actions[1..]);
    }
  }

  /** The poller's moves after a refusal. */
  lemma PollerRetries(cfg: Config, m: Machine, dlqOk: bool)
    ensures var m' := Next(cfg, m, PollerStep(dlqOk));
      match m.poller
      case Rejected(msg) => m' == m.(stats := m.stats.(fullErrors := m.stats.fullErrors + 1), poller := Retrying(msg))
      case Retrying(msg) =>
        m' == if Fits(cfg, m.queue) then m.(queue := m.queue + [msg], poller := Counting) else m.(dropped := m.dropped + [msg], poller := Polling)
      case Counting => m' == m.(stats := m.stats.(enqueued := m.stats.enqueued + 1), poller := Polling)
      case _ => true
  {
  }

  /** Only moves of the poller and what happens during the back-off. */
  predicate Steps(trace: seq<Action>, p: Action, during: seq<Action>) {
    forall i :: 0 <= i < |trace| ==> trace[i] == p || trace[i] in during
  }

  lemma StepsJoin(a: seq<Action>, b: seq<Action>, p: Action, during: seq<Action>)
    requires Steps(a, p, during) && Steps(b, p, during)
    ensures Steps(a + b, p, during)
  {
  }

  /** The consumer: the pool it feeds, its statistics, and the workers beside it. */
  class Consumer {
    const cfg: Config
    const pool: WorkerPool
    var stats: Stats
    var workers: seq<Worker>
    var seen: seq<Msg>
    var processed: seq<Msg>
    var undecodable: seq<Msg>
    var failed: seq<Msg>
    var dropped: seq<Msg>

    /** The machine's state, with the poller at the given point. */
    function State(p: Poller): Machine
      reads this, pool
    {
      Machine(p, workers, pool.workCh, stats, seen, processed, undecodable, failed, dropped)
    }

    constructor (workerCount: int, capacity: int, hasDlq: bool)
      ensures fresh(pool) && cfg == PoolConfig(workerCount, capacity, hasDlq) && pool.queueCapacity == cfg.capacity
      ensures State(Polling) == Initial(cfg)
    {
      cfg := PoolConfig(workerCount, capacity, hasDlq);
      pool := new WorkerPool(capacity);
      stats := Stats(0, 0, 0, 0, 0, 0, 0, 0);
      workers := seq(PoolConfig(workerCount, capacity, hasDlq).workers, _ => Idle);
      seen, processed, undecodable, failed, dropped := [], [], [], [], [];
    }

    method HandleProcessingError(dlqOk: bool)
      modifies this`stats
      ensures var s := old(stats).(errors := old(stats).errors + 1);
        stats == if cfg.hasDlq then PublishDeadLetter(s, dlqOk) else s
      ensures stats.deadLetters == old(stats).deadLetters + One(cfg.hasDlq && dlqOk)
      ensures stats.deadLetterErrors == old(stats).deadLetterErrors + One(cfg.hasDlq && !dlqOk)
    {
      stats := stats.(errors := stats.errors + 1);
      if !cfg.hasDlq {
        return;
      }
      if !dlqOk {
        stats := stats.(deadLetterErrors := stats.deadLetterErrors + 1);
        return;
      }
      stats := stats.(deadLetters := stats.deadLetters + 1);
    }

    /** The back-off sleep: meanwhile the workers take the steps that `during` lists. */
    method Sleep(during: seq<Action>, p: Poller)
      requires OnlyWorkers(during)
      modifies this, pool
      ensures State(p) == RunFrom(cfg, old(State(p)), during)
    {
      WorkersOnly(cfg, State(p), during);
      var m := RunFrom(cfg, State(p), during);
      workers, pool.workCh, stats := m.workers, m.queue, m.stats;
      seen, processed, undecodable, failed, dropped := m.seen, m.processed, m.undecodable, m.failed, m.dropped;
    }

    /** After a refusal: count it, back off, and try once more. */
    method RetryEnqueue(msg: Msg, dlqOk: bool, during: seq<Action>) returns (enqueued: bool, ghost trace: seq<Action>)
      requires OnlyWorkers(during) && pool.queueCapacity == cfg.capacity
      modifies this, pool
      ensures State(Polling) == RunFrom(cfg, old(State(Rejected(msg))), trace)
      ensures Steps(trace, PollerStep(dlqOk), during)
      ensures seen == old(seen) && undecodable == old(undecodable)
      ensures dropped == old(dropped) + (if enqueued then [] else [msg])
      ensures enqueued ==> pool.workCh != [] && pool.workCh[|pool.workCh| - 1] == msg
    {
      ghost var start, p := State(Rejected(msg)), PollerStep(dlqOk);
      OneStep(cfg, start, p);
      PollerRetries(cfg, start, dlqOk);
      trace := [p];
      stats := stats.(fullErrors := stats.fullErrors + 1);
      RunAppend(cfg, start, trace, during);
      WorkersOnly(cfg, State(Retrying(msg)), during);
      assert Steps([p], p, during) && Steps(during, p, during);
      hide RunFrom, Next, Steps;
      StepsJoin(trace, during, p, during);
      trace := trace + during;
      Sleep(during, Retrying(msg));
      PollerRetries(cfg, State(Retrying(msg)), dlqOk);
      RunOneMore(cfg, start, trace, p);
      StepsJoin(trace, [p], p, during);
      trace := trace + [p];
      enqueued := pool.Enqueue(msg);
      if !enqueued {
        dropped := dropped + [msg];
        return;
      }
      PollerRetries(cfg, State(Counting), dlqOk);
      RunOneMore(cfg, start, trace, p);
      StepsJoin(trace, [p], p, during);
      trace := trace + [p];
      stats := stats.(enqueued := stats.enqueued + 1);
    }

    /**
      One message, start to end, is a run of the machine: it is polled, then the poller moves until it
      is ready to poll again, and workers move only during the back-off.  The message ends as exactly
      one of undecodable, enqueued, or dropped after a second refusal.
     */
    method EnqueueKafkaMessage(msg: Msg, valid: bool, dlqOk: bool, during: seq<Action>)
      returns (enqueued: bool, ghost trace: seq<Action>)
      requires OnlyWorkers(during) && pool.queueCapacity == cfg.capacity
      modifies this, pool
      ensures State(Polling) == RunFrom(cfg, old(State(Polling)), trace)
      ensures trace != [] && trace[0] == Poll(msg, valid) && Steps(trace[1..], PollerStep(dlqOk), during)
      ensures seen == old(seen) + [msg]
      ensures undecodable == old(undecodable) + (if valid then [] else [msg])
      ensures dropped == old(dropped) + (if valid && !enqueued then [msg] else [])
      ensures enqueued ==> valid && pool.workCh != [] && pool.workCh[|pool.workCh| - 1] == msg
      ensures valid && |old(pool.workCh)| < cfg.capacity ==> enqueued
    {
      ghost var start, p := State(Polling), PollerStep(dlqOk);
      trace := [Poll(msg, valid)];
      OneStep(cfg, start, Poll(msg, valid));
      hide RunFrom, NextWorker;
      stats := stats.(seen := stats.seen + 1);
      seen := seen + [msg];
      RunOneMore(cfg, start, trace, p);
      trace := trace + [p];
      if !valid {
        if cfg.hasDlq {
          RunOneMore(cfg, start, trace, p);
          trace := trace + [p];
        }
        HandleProcessingError(dlqOk);
        undecodable := undecodable + [msg];
        return false, trace;
      }
      enqueued := pool.Enqueue(msg);
      if enqueued {
        RunOneMore(cfg, start, trace, p);
        trace := trace + [p];
        stats := stats.(enqueued := stats.enqueued + 1);
      } else {
        assert State(Rejected(msg)) == RunFrom(cfg, start, trace);
        ghost var rest;
        enqueued, rest := RetryEnqueue(msg, dlqOk, during);
        RunAppend(cfg, start, trace, rest);
        trace := trace + rest;
      }
    }
  }
}
