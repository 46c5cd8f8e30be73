/**
 The notification dispatcher: a retrying worker pool with atomic counters and a bounded
 dead-letter channel. Senders of notifications, the drainer of dead letters and the caller's
 context are the environment; `Send` may return anything, but does return.
 */
module Dispatcher {
  import opened Prelude

  datatype Notification = Notification(id: string, customerId: string, channel: string, body: string)

  /** Any `workers` and `maxAttempts`: neither is clamped by the dispatcher. */
  datatype Config = Config(workers: int, maxAttempts: int)

  const DEAD_CAPACITY: nat := 64

  function Pool(c: Config): (n: nat)
    ensures n == c.workers || (n == 0 && c.workers < 0)
  {
    if c.workers < 0 then 0 else c.workers
  }

  function Attempts(c: Config): (n: nat)
    ensures n == c.maxAttempts || (n == 0 && c.maxAttempts < 0)
  {
    if c.maxAttempts < 0 then 0 else c.maxAttempts
  }

  datatype Worker =
    | Selecting                                                // worker's select
    | Sending(n: Notification, attempt: nat)                   // inside Send
    | Counting(n: Notification, attempt: nat, sendOk: bool)    // Send returned, counter not yet bumped
    | Waiting(n: Notification, attempt: nat)                   // backoff select before `attempt`
    | Exhausted(n: Notification)                               // left the retry loop
    | Enqueuing(n: Notification)                               // counted as dead, select on the channel
    | Exited

  /** The three atomic counters. */
  datatype Metrics = Metrics(sent: nat, failed: nat, deadLettered: nat)

  /** History: completed Send calls, and how notifications ended. */
  datatype Log = Log(
    calls: nat,
    delivered: seq<Notification>,    // successfully sent
    drained: seq<Notification>,      // read from the dead-letter channel
    abandoned: seq<Notification>,    // given up in a backoff on cancel
    forsaken: seq<Notification>)     // counted as dead, then given up on cancel

  datatype State = State(
    offered: seq<Notification>,      // everything ever sent on the input channel
    inClosed: bool,
    taken: nat,                      // how many of them workers received
    workers: seq<Worker>,
    metrics: Metrics,
    queue: seq<Notification>,        // the buffered dead-letter channel
    cancelled: bool,
    deadCloses: nat,
    log: Log)

  datatype Action =
    | Offer(m: Notification)         // environment
    | CloseInput                     // environment
    | CancelContext                  // environment
    | Drain                          // environment
    | Take(w: nat)
    | SendReturns(w: nat, ok: bool)
    | Count(w: nat)
    | TimerFires(w: nat)
    | GiveUp(w: nat)
    | CountDead(w: nat)
    | Enqueue(w: nat)
    | Forsake(w: nat)
    | LeaveDrained(w: nat)
    | LeaveCancelled(w: nat)
    | CloseDead

  predicate Internal(a: Action) {
    !a.Offer? && !a.CloseInput? && !a.CancelContext? && !a.Drain?
  }

  function Init(c: Config): State {
    State([], false, 0, seq(Pool(c), _ => Selecting), Metrics(0, 0, 0), [], false, 0, Log(0, [], [], [], []))
  }

  predicate AllExited(workers: seq<Worker>) {
    forall w | 0 <= w < |workers| :: workers[w].Exited?
  }

  /** Where a worker goes when it starts attempt number `attempt` of the retry loop, or leaves it. */
  function Begin(c: Config, n: Notification): Worker {
    if 0 < c.maxAttempts then Sending(n, 0) else Exhausted(n)
  }

  function Retry(c: Config, n: Notification, attempt: nat): Worker {
    if attempt < c.maxAttempts then Waiting(n, attempt) else Exhausted(n)
  }

  function Move(s: State, w: nat, x: Worker): State
    requires w < |s.workers|
  {
    s.(workers := s.workers[w := x])
  }

  function Step(c: Config, s: State, a: Action): Option<State> {
    match a
    case Offer(m) =>
      if !s.inClosed then Some(s.(offered := s.offered + [m])) else None
    case CloseInput =>
      if !s.inClosed then Some(s.(inClosed := true)) else None
    case CancelContext =>
      if !s.cancelled then Some(s.(cancelled := true)) else None
    case Drain =>
      if s.queue != [] then
        Some(s.(queue := s.queue[1..], log := s.log.(drained := s.log.drained + [s.queue[0]])))
      else None
    case CloseDead =>
      if s.deadCloses == 0 && AllExited(s.workers) then Some(s.(deadCloses := s.deadCloses + 1)) else None
    case _ =>
      if a.w < |s.workers| then WorkerStep(c, s, a) else None
  }

  function WorkerStep(c: Config, s: State, a: Action): Option<State>
    requires Internal(a) && !a.CloseDead? && a.w < |s.workers|
  {
    var w, x := a.w, s.workers[a.w];
    match a
    case Take(_) =>
      if x.Selecting? && s.taken < |s.offered| then
        Some(Move(s, w, Begin(c, s.offered[s.taken])).(taken := s.taken + 1))
      else None
    case SendReturns(_, ok) =>
      if x.Sending? then
        Some(Move(s, w, Counting(x.n, x.attempt, ok)).(log := s.log.(calls := s.log.calls + 1)))
      else None
    case Count(_) =>
      if !x.Counting? then None
      else if x.sendOk then Some(Move(s, w, Selecting).(metrics := s.metrics.(sent := s.metrics.sent + 1),
                                                   log := s.log.(delivered := s.log.delivered + [x.n])))
      else Some(Move(s, w, Retry(c, x.n, x.attempt + 1)).(metrics := s.metrics.(failed := s.metrics.failed + 1)))
    case TimerFires(_) =>
      if x.Waiting? then Some(Move(s, w, Sending(x.n, x.attempt))) else None
    case GiveUp(_) =>
      if x.Waiting? && s.cancelled then
        Some(Move(s, w, Selecting).(log := s.log.(abandoned := s.log.abandoned + [x.n])))
      else None
    case CountDead(_) =>
      if x.Exhausted? then
        Some(Move(s, w, Enqueuing(x.n)).(metrics := s.metrics.(deadLettered := s.metrics.deadLettered + 1)))
      else None
    case Enqueue(_) =>
      if x.Enqueuing? && |s.queue| < DEAD_CAPACITY then
        Some(Move(s, w, Selecting).(queue := s.queue + [x.n]))
      else None
    case Forsake(_) =>
      if x.Enqueuing? && s.cancelled then
        Some(Move(s, w, Selecting).(log := s.log.(forsaken := s.log.forsaken + [x.n])))
      else None
    case LeaveDrained(_) =>
      if x.Selecting? && s.inClosed && s.taken == |s.offered| then Some(Move(s, w, Exited)) else None
    case LeaveCancelled(_) =>
      if x.Selecting? && s.cancelled then Some(Move(s, w, Exited)) else None
  }

  function Replay(c: Config, s: State, schedule: seq<Action>): Option<State>
    decreases schedule
  {
    if schedule == [] then Some(s)
    else match Step(c, s, schedule[0])
         case None => None
         case Some(t) => Replay(c, t, schedule[1..])
  }

  predicate Reaches(c: Config, schedule: seq<Action>, s: State) {
    Replay(c, Init(c), schedule) == Some(s)
  }

  // ----- what workers carry -----

  predicate Carries(x: Worker) {
    !x.Selecting? && !x.Exited?
  }

  function Holds(n: Notification): Worker -> nat {
    (x: Worker) => if Carries(x) && x.n == n then 1 else 0
  }

  function Copies(xs: seq<Notification>, n: Notification): nat {
    multiset(xs)[n]
  }

  lemma CopiesSnoc(xs: seq<Notification>, m: Notification, n: Notification)
    ensures Copies(xs + [m], n) == Copies(xs, n) + if m == n then 1 else 0
  {
  }

  /** Not yet counted as sent, dead or given up. */
  function InProcess(x: Worker): nat {
    if Carries(x) && !x.Enqueuing? then 1 else 0
  }

  /** Counted as dead, not yet on the channel. */
  function AwaitsQueue(x: Worker): nat {
    if x.Enqueuing? then 1 else 0
  }

  /** Has a Send result that no counter shows yet. */
  function Uncounted(x: Worker): nat {
    if x.Counting? then 1 else 0
  }

  /** Counted failures of the notification a worker still retries, out of `m` attempts. */
  function FailuresInHand(m: nat): Worker -> nat {
    (x: Worker) => match x
      case Sending(_, attempt) => attempt
      case Counting(_, attempt, _) => attempt
      case Waiting(_, attempt) => attempt
      case Exhausted(_) => m
      case _ => 0
  }

  // ----- the invariant -----

  predicate WorkerOk(c: Config, x: Worker) {
    match x
    case Sending(_, attempt) => attempt < Attempts(c)
    case Counting(_, attempt, _) => attempt < Attempts(c)
    case Waiting(_, attempt) => attempt < Attempts(c)
    case _ => true
  }

  predicate Shape(c: Config, s: State) {
    && |s.workers| == Pool(c)
    && s.taken <= |s.offered|
    && |s.queue| <= DEAD_CAPACITY
    && (forall w | 0 <= w < |s.workers| :: WorkerOk(c, s.workers[w]))
    && (forall w | 0 <= w < |s.workers| :: s.workers[w].Exited? ==>
          s.cancelled || (s.inClosed && s.taken == |s.offered|))
    && s.deadCloses <= 1
    && (s.deadCloses == 1 ==> AllExited(s.workers))
    && (!s.cancelled ==> s.log.abandoned == [] && s.log.forsaken == [])
  }

  /** Everything that ever went onto the dead-letter channel. */
  function Carried(s: State): seq<Notification> {
    s.log.drained + s.queue
  }

  /** How many copies of `n` no worker holds any more. */
  function EndedIn(l: Log, queue: seq<Notification>, n: Notification): nat {
    Copies(l.delivered, n) + Copies(l.drained + queue, n) + Copies(l.abandoned, n) + Copies(l.forsaken, n)
  }

  function Ended(s: State, n: Notification): nat {
    EndedIn(s.log, s.queue, n)
  }

  /** Each copy taken is delivered, on the dead-letter channel, given up or in one worker's hands. */
  predicate ConservedAt(s: State, n: Notification) {
    s.taken <= |s.offered| && Copies(s.offered[..s.taken], n) == Ended(s, n) + Total(s.workers, Holds(n))
  }

  ghost predicate Conserved(s: State) {
    forall n :: ConservedAt(s, n)
  }

  /** What the three counters say. */
  predicate Counted(s: State) {
    && s.metrics.sent == |s.log.delivered|
    && s.metrics.deadLettered == |Carried(s)| + |s.log.forsaken| + Total(s.workers, AwaitsQueue)
    && s.taken == s.metrics.sent + s.metrics.deadLettered + |s.log.abandoned| + Total(s.workers, InProcess)
    && s.log.calls == s.metrics.sent + s.metrics.failed + Total(s.workers, Uncounted)
  }

  /** Failed attempts lie between what dead notifications cost and what the others can have cost. */
  predicate AttemptsOk(c: Config, s: State) {
    var m := Attempts(c);
    var inHand := Total(s.workers, FailuresInHand(m));
    && m * s.metrics.deadLettered + inHand <= s.metrics.failed
    && s.metrics.failed <= m * s.metrics.deadLettered + (m - 1) * Spared(s) + inHand
  }

  ghost predicate Inv(c: Config, s: State) {
    Shape(c, s) && Conserved(s) && Counted(s) && AttemptsOk(c, s)
  }

  lemma InitInv(c: Config)
    ensures Inv(c, Init(c))
  {
    var s := Init(c);
    forall n ensures ConservedAt(s, n) {
      TotalUniform(s.workers, Holds(n), 0);
    }
    TotalUniform(s.workers, AwaitsQueue, 0);
    TotalUniform(s.workers, InProcess, 0);
    TotalUniform(s.workers, Uncounted, 0);
    TotalUniform(s.workers, FailuresInHand(Attempts(c)), 0);
  }

  predicate MovesWorker(a: Action) {
    Internal(a) && !a.CloseDead?
  }

  lemma OnlyOneWorkerMoves(c: Config, s: State, a: Action)
    requires Step(c, s, a).Some?
    ensures var t := Step(c, s, a).value;
            |t.workers| == |s.workers|
            && if MovesWorker(a) then a.w < |s.workers| && t.workers == s.workers[a.w := t.workers[a.w]]
               else t.workers == s.workers
  {
  }

  lemma WorkerStaysOk(c: Config, s: State, a: Action)
    requires Shape(c, s) && MovesWorker(a) && a.w < |s.workers| && WorkerStep(c, s, a).Some?
    ensures var t := WorkerStep(c, s, a).value;
            && WorkerOk(c, t.workers[a.w])
            && (t.workers[a.w].Exited? ==> t.cancelled || (t.inClosed && t.taken == |t.offered|))
            && !s.workers[a.w].Exited?
            && (t.offered, t.inClosed, t.cancelled, t.deadCloses) == (s.offered, s.inClosed, s.cancelled, s.deadCloses)
            && s.taken <= t.taken <= |t.offered| && |t.queue| <= DEAD_CAPACITY
            && (!t.cancelled ==> t.log.abandoned == [] && t.log.forsaken == [])
  {
    assert WorkerOk(c, s.workers[a.w]);
  }

  lemma ShapeStep(c: Config, s: State, a: Action)
    requires Shape(c, s) && Step(c, s, a).Some?
    ensures Shape(c, Step(c, s, a).value)
  {
    OnlyOneWorkerMoves(c, s, a);
    if MovesWorker(a) {
      WorkerStaysOk(c, s, a);
    }
  }

  /** The step takes a notification from the input, or hands one from a worker to a list, or keeps all as they are. */
  predicate EndedMoves(s: State, t: State, w: nat, take: bool, n: Notification)
    requires w < |s.workers| == |t.workers|
  {
    var holds := Holds(n);
    && t.offered == s.offered
    && if take then
         && s.taken < |s.offered| && t.taken == s.taken + 1 && Ended(t, n) == Ended(s, n)
         && holds(t.workers[w]) == (if s.offered[s.taken] == n then 1 else 0)
         && holds(s.workers[w]) == 0
       else
         t.taken == s.taken && Ended(t, n) + holds(t.workers[w]) == Ended(s, n) + holds(s.workers[w])
  }

  lemma DeliveringAddsOne(l: Log, queue: seq<Notification>, m: Notification, n: Notification)
    ensures EndedIn(l.(delivered := l.delivered + [m]), queue, n) == EndedIn(l, queue, n) + if m == n then 1 else 0
  {
    CopiesSnoc(l.delivered, m, n);
  }

  lemma AbandoningAddsOne(l: Log, queue: seq<Notification>, m: Notification, n: Notification)
    ensures EndedIn(l.(abandoned := l.abandoned + [m]), queue, n) == EndedIn(l, queue, n) + if m == n then 1 else 0
  {
    CopiesSnoc(l.abandoned, m, n);
  }

  lemma ForsakingAddsOne(l: Log, queue: seq<Notification>, m: Notification, n: Notification)
    ensures EndedIn(l.(forsaken := l.forsaken + [m]), queue, n) == EndedIn(l, queue, n) + if m == n then 1 else 0
  {
    CopiesSnoc(l.forsaken, m, n);
  }

  lemma EnqueuingAddsOne(l: Log, queue: seq<Notification>, m: Notification, n: Notification)
    ensures EndedIn(l, queue + [m], n) == EndedIn(l, queue, n) + if m == n then 1 else 0
  {
    CopiesSnoc(l.drained + queue, m, n);
    assert l.drained + (queue + [m]) == (l.drained + queue) + [m];
  }

  lemma CountMoves(c: Config, s: State, t: State, w: nat, n: Notification)
    requires w < |s.workers| && WorkerStep(c, s, Count(w)) == Some(t)
    ensures |t.workers| == |s.workers| && EndedMoves(s, t, w, false, n)
  {
    if s.workers[w].sendOk {
      DeliveringAddsOne(s.log, s.queue, s.workers[w].n, n);
    }
  }

  lemma GiveUpMoves(c: Config, s: State, t: State, w: nat, n: Notification)
    requires w < |s.workers| && WorkerStep(c, s, GiveUp(w)) == Some(t)
    ensures |t.workers| == |s.workers| && EndedMoves(s, t, w, false, n)
  {
    AbandoningAddsOne(s.log, s.queue, s.workers[w].n, n);
  }

  lemma ForsakeMoves(c: Config, s: State, t: State, w: nat, n: Notification)
    requires w < |s.workers| && WorkerStep(c, s, Forsake(w)) == Some(t)
    ensures |t.workers| == |s.workers| && EndedMoves(s, t, w, false, n)
  {
    ForsakingAddsOne(s.log, s.queue, s.workers[w].n, n);
  }

  lemma EnqueueMoves(c: Config, s: State, t: State, w: nat, n: Notification)
    requires w < |s.workers| && WorkerStep(c, s, Enqueue(w)) == Some(t)
    ensures |t.workers| == |s.workers| && EndedMoves(s, t, w, false, n)
  {
    EnqueuingAddsOne(s.log, s.queue, s.workers[w].n, n);
  }

  lemma TakeMoves(c: Config, s: State, t: State, w: nat, n: Notification)
    requires w < |s.workers| && WorkerStep(c, s, Take(w)) == Some(t)
    ensures |t.workers| == |s.workers| && EndedMoves(s, t, w, true, n)
  {
  }

  /** The other steps end nothing and keep the worker's notification. */
  lemma LoadStays(c: Config, s: State, t: State, a: Action, n: Notification)
    requires a.SendReturns? || a.TimerFires? || a.CountDead? || a.LeaveDrained? || a.LeaveCancelled?
    requires a.w < |s.workers| && WorkerStep(c, s, a) == Some(t)
    ensures |t.workers| == |s.workers| && EndedMoves(s, t, a.w, false, n)
  {
    assert t.log == s.log || t.log == s.log.(calls := s.log.calls + 1);
  }

  lemma EndedStep(c: Config, s: State, t: State, a: Action, n: Notification)
    requires MovesWorker(a) && a.w < |s.workers| == |t.workers| && WorkerStep(c, s, a) == Some(t)
    ensures EndedMoves(s, t, a.w, a.Take?, n)
  {
    match a
    case Take(w) => TakeMoves(c, s, t, w, n);
    case Count(w) => CountMoves(c, s, t, w, n);
    case GiveUp(w) => GiveUpMoves(c, s, t, w, n);
    case Forsake(w) => ForsakeMoves(c, s, t, w, n);
    case Enqueue(w) => EnqueueMoves(c, s, t, w, n);
    case _ => LoadStays(c, s, t, a, n);
  }

  lemma TakingOneMore(xs: seq<Notification>, taken: nat, n: Notification)
    requires taken < |xs|
    ensures Copies(xs[..taken + 1], n) == Copies(xs[..taken], n) + if xs[taken] == n then 1 else 0
  {
    assert xs[..taken + 1] == xs[..taken] + [xs[taken]];
    CopiesSnoc(xs[..taken], xs[taken], n);
  }

  lemma EnvironmentConserves(c: Config, s: State, t: State, a: Action, n: Notification)
    requires ConservedAt(s, n) && Step(c, s, a) == Some(t) && !MovesWorker(a)
    ensures ConservedAt(t, n)
  {
    assert t.workers == s.workers;
    assert t.offered[..t.taken] == s.offered[..s.taken];
    assert Carried(t) == Carried(s);
  }

  lemma WorkerConserves(c: Config, s: State, t: State, a: Action, n: Notification)
    requires ConservedAt(s, n) && MovesWorker(a) && a.w < |s.workers| == |t.workers|
    requires t.workers == s.workers[a.w := t.workers[a.w]] && EndedMoves(s, t, a.w, a.Take?, n)
    ensures ConservedAt(t, n)
  {
    TotalUpdate(s.workers, a.w, t.workers[a.w], Holds(n));
    if a.Take? {
      TakingOneMore(s.offered, s.taken, n);
    }
  }

  lemma ConservedStep(c: Config, s: State, a: Action, n: Notification)
    requires ConservedAt(s, n) && Step(c, s, a).Some?
    ensures ConservedAt(Step(c, s, a).value, n)
  {
    var t := Step(c, s, a).value;
    OnlyOneWorkerMoves(c, s, a);
    if MovesWorker(a) {
      EndedStep(c, s, t, a, n);
      WorkerConserves(c, s, t, a, n);
    } else {
      EnvironmentConserves(c, s, t, a, n);
    }
  }

  lemma CountersMove(c: Config, s: State, a: Action)
    requires MovesWorker(a) && a.w < |s.workers| && WorkerStep(c, s, a).Some?
    ensures var t, x := WorkerStep(c, s, a).value, s.workers[a.w];
            var y := t.workers[a.w];
            && t.metrics.sent - s.metrics.sent == |t.log.delivered| - |s.log.delivered|
            && t.metrics.deadLettered - s.metrics.deadLettered
               == |Carried(t)| - |Carried(s)| + |t.log.forsaken| - |s.log.forsaken| + AwaitsQueue(y) - AwaitsQueue(x)
            && t.taken - s.taken
               == t.metrics.sent - s.metrics.sent + t.metrics.deadLettered - s.metrics.deadLettered
                  + |t.log.abandoned| - |s.log.abandoned|
                  + InProcess(y) - InProcess(x)
            && t.log.calls - s.log.calls
               == t.metrics.sent - s.metrics.sent + t.metrics.failed - s.metrics.failed + Uncounted(y) - Uncounted(x)
  {
  }

  lemma CountedStep(c: Config, s: State, a: Action)
    requires Counted(s) && Step(c, s, a).Some?
    ensures Counted(Step(c, s, a).value)
  {
    var t := Step(c, s, a).value;
    OnlyOneWorkerMoves(c, s, a);
    if MovesWorker(a) {
      CountersMove(c, s, a);
      TotalUpdate(s.workers, a.w, t.workers[a.w], AwaitsQueue);
      TotalUpdate(s.workers, a.w, t.workers[a.w], InProcess);
      TotalUpdate(s.workers, a.w, t.workers[a.w], Uncounted);
    } else {
      assert Carried(t) == Carried(s);
    }
  }

  /** Notifications that ended without being counted as dead. */
  function Spared(s: State): nat {
    s.metrics.sent + |s.log.abandoned|
  }

  lemma FailuresMove(c: Config, s: State, a: Action)
    requires Shape(c, s) && MovesWorker(a) && a.w < |s.workers| && WorkerStep(c, s, a).Some?
    ensures var t, m := WorkerStep(c, s, a).value, Attempts(c);
            var inHand: int := FailuresInHand(m)(t.workers[a.w]) - FailuresInHand(m)(s.workers[a.w]);
            var dead, spared := t.metrics.deadLettered - s.metrics.deadLettered, Spared(t) - Spared(s);
            || (dead == 0 && spared == 0 && t.metrics.failed == s.metrics.failed + inHand)
            || (dead == 1 && spared == 0 && t.metrics.failed == s.metrics.failed && inHand + m == 0)
            || (dead == 0 && spared == 1 && t.metrics.failed == s.metrics.failed && -(m - 1) <= inHand <= 0)
  {
    assert WorkerOk(c, s.workers[a.w]);
  }

  lemma BoundsMove(m: nat, dead: nat, ended: nat, failed: int, inHand: int,
                   dead': nat, ended': nat, failed': int, inHand': int)
    requires m * dead + inHand <= failed <= m * dead + (m - 1) * ended + inHand
    requires || (dead' == dead && ended' == ended && failed' - failed == inHand' - inHand)
             || (dead' == dead + 1 && ended' == ended && failed' == failed && inHand' == inHand - m)
             || (dead' == dead && ended' == ended + 1 && failed' == failed && -(m - 1) <= inHand' - inHand <= 0)
    ensures m * dead' + inHand' <= failed' <= m * dead' + (m - 1) * ended' + inHand'
  {
    assert m * (dead + 1) == m * dead + m;
    assert (m - 1) * (ended + 1) == (m - 1) * ended + (m - 1);
  }

  lemma AttemptsStep(c: Config, s: State, a: Action)
    requires Shape(c, s) && AttemptsOk(c, s) && Step(c, s, a).Some?
    ensures AttemptsOk(c, Step(c, s, a).value)
  {
    var t, m := Step(c, s, a).value, Attempts(c);
    OnlyOneWorkerMoves(c, s, a);
    if MovesWorker(a) {
      FailuresMove(c, s, a);
      TotalUpdate(s.workers, a.w, t.workers[a.w], FailuresInHand(m));
      BoundsMove(m, s.metrics.deadLettered, Spared(s), s.metrics.failed, Total(s.workers, FailuresInHand(m)),
                 t.metrics.deadLettered, Spared(t), t.metrics.failed, Total(t.workers, FailuresInHand(m)));
    }
  }

  lemma StepInv(c: Config, s: State, a: Action)
    requires Inv(c, s) && Step(c, s, a).Some?
    ensures Inv(c, Step(c, s, a).value)
  {
    ShapeStep(c, s, a);
    forall n ensures ConservedAt(Step(c, s, a).value, n) {
      ConservedStep(c, s, a, n);
    }
    CountedStep(c, s, a);
    AttemptsStep(c, s, a);
  }

  lemma {:induction false} ReplayInv(c: Config, s: State, schedule: seq<Action>)
    requires Inv(c, s) && Replay(c, s, schedule).Some?
    ensures Inv(c, Replay(c, s, schedule).value)
    decreases schedule
  {
    if schedule != [] {
      StepInv(c, s, schedule[0]);
      ReplayInv(c, Step(c, s, schedule[0]).value, schedule[1..]);
    }
  }

  lemma ReachableInv(c: Config, schedule: seq<Action>, s: State)
    requires Reaches(c, schedule, s)
    ensures Inv(c, s)
  {
    InitInv(c);
    ReplayInv(c, Init(c), schedule);
  }
}
