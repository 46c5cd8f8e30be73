/** What the dispatcher guarantees over whole runs: conservation, accounting, progress, termination. */
module DispatcherResults {
  import opened Prelude
  import opened Dispatcher

  // ----- conservation -----

  /**
   In every reachable state each notification taken is in one place, and the counters add up:
   taken = sent + dead-lettered + abandoned + in process, and completed sends = sent + failed + uncounted.
   */
  lemma NothingIsLost(c: Config, schedule: seq<Action>, s: State)
    requires Reaches(c, schedule, s)
    ensures forall n :: ConservedAt(s, n)
    ensures s.taken == s.metrics.sent + s.metrics.deadLettered + |s.log.abandoned| + Total(s.workers, InProcess)
    ensures s.metrics.deadLettered == |Carried(s)| + |s.log.forsaken| + Total(s.workers, AwaitsQueue)
    ensures |Carried(s)| <= s.metrics.deadLettered
    ensures s.log.calls == s.metrics.sent + s.metrics.failed + Total(s.workers, Uncounted)
  {
    ReachableInv(c, schedule, s);
  }

  lemma ExitedWorkersHoldNothing(c: Config, s: State)
    requires AllExited(s.workers)
    ensures forall n :: Total(s.workers, Holds(n)) == 0
    ensures Total(s.workers, InProcess) == Total(s.workers, AwaitsQueue) == Total(s.workers, Uncounted) == 0
    ensures Total(s.workers, FailuresInHand(Attempts(c))) == 0
  {
    forall n
      ensures Total(s.workers, Holds(n)) == 0
    {
      TotalUniform(s.workers, Holds(n), 0);
    }
    TotalUniform(s.workers, InProcess, 0);
    TotalUniform(s.workers, AwaitsQueue, 0);
    TotalUniform(s.workers, Uncounted, 0);
    TotalUniform(s.workers, FailuresInHand(Attempts(c)), 0);
  }

  /** After Run returned, cancelled or not: what was taken is exactly what ended, one way each. */
  lemma FinishedRunAccounts(c: Config, schedule: seq<Action>, s: State)
    requires Reaches(c, schedule, s) && s.deadCloses > 0
    ensures s.taken <= |s.offered|
    ensures multiset(s.offered[..s.taken])
         == multiset(s.log.delivered) + multiset(Carried(s)) + multiset(s.log.abandoned) + multiset(s.log.forsaken)
    ensures s.metrics.sent == |s.log.delivered| && s.metrics.deadLettered == |Carried(s)| + |s.log.forsaken|
    ensures s.log.calls == s.metrics.sent + s.metrics.failed
  {
    ReachableInv(c, schedule, s);
    ExitedWorkersHoldNothing(c, s);
    var taken, l := multiset(s.offered[..s.taken]), s.log;
    var ended := multiset(l.delivered) + multiset(Carried(s)) + multiset(l.abandoned) + multiset(l.forsaken);
    forall n
      ensures taken[n] == ended[n]
    {
      assert ConservedAt(s, n);
    }
    assert taken == ended;
  }

  /** The whole input was taken, and every notification was either sent or put on the dead-letter channel. */
  ghost predicate Drained(s: State) {
    && s.inClosed && s.taken == |s.offered|
    && s.metrics.sent + s.metrics.deadLettered == |s.offered|
    && multiset(s.offered) == multiset(s.log.delivered) + multiset(Carried(s))
    && |s.log.delivered| == s.metrics.sent && |Carried(s)| == s.metrics.deadLettered
  }

  ghost predicate AlwaysDrains(c: Config) {
    forall schedule, s | Reaches(c, schedule, s) && s.deadCloses > 0 && !s.cancelled :: Drained(s)
  }

  lemma UncancelledRunDrains(c: Config, schedule: seq<Action>, s: State)
    requires c.workers >= 1 && Reaches(c, schedule, s) && s.deadCloses > 0 && !s.cancelled
    ensures Drained(s)
  {
    ReachableInv(c, schedule, s);
    assert s.workers[0].Exited?;
    assert s.offered[..s.taken] == s.offered;
    ExitedWorkersHoldNothing(c, s);
    FinishedRunAccounts(c, schedule, s);
  }

  /** An uncancelled Run always handles its whole input exactly when it has a worker. */
  lemma DrainsIffItHasWorkers(c: Config)
    ensures AlwaysDrains(c) <==> c.workers >= 1
  {
    if c.workers >= 1 {
      forall schedule, s | Reaches(c, schedule, s) && s.deadCloses > 0 && !s.cancelled
        ensures Drained(s)
      {
        UncancelledRunDrains(c, schedule, s);
      }
    } else {
      var m := Notification("n1", "cus_1", "email", "hello");
      var s1 := Step(c, Init(c), Offer(m)).value;
      var s2 := Step(c, s1, CloseDead).value;
      var schedule := [Offer(m), CloseDead];
      assert schedule[1..] == [CloseDead] && [CloseDead][1..] == [];
      assert Replay(c, s1, [CloseDead]) == Replay(c, s2, []);
      assert Reaches(c, schedule, s2) && !Drained(s2);
    }
  }

  /** Attempts of an uncancelled run: a dead notification costs all of them, a sent one at most all but the last. */
  lemma AttemptAccounting(c: Config, schedule: seq<Action>, s: State)
    requires Reaches(c, schedule, s) && s.deadCloses > 0 && !s.cancelled
    ensures var m := Attempts(c);
            m * s.metrics.deadLettered <= s.metrics.failed
            <= m * s.metrics.deadLettered + (m - 1) * s.metrics.sent
    ensures s.log.calls == s.metrics.sent + s.metrics.failed
  {
    ReachableInv(c, schedule, s);
    ExitedWorkersHoldNothing(c, s);
  }

  /** The dead-letter channel is closed at most once, and after that nobody can send on it. */
  lemma DeadChannelClosesOnce(c: Config, schedule: seq<Action>, s: State)
    requires Reaches(c, schedule, s)
    ensures s.deadCloses <= 1 && |s.queue| <= 64
    ensures s.deadCloses == 1 ==> forall w | 0 <= w < |s.workers| :: s.workers[w].Exited?
  {
    ReachableInv(c, schedule, s);
  }

  // ----- the result does not depend on the schedule -----

  /** Does Send accept `n` on some attempt the dispatcher makes? */
  predicate Sendable(c: Config, sender: (Notification, nat) -> bool, n: Notification) {
    exists b: nat | b < Attempts(c) :: sender(n, b)
  }

  predicate FailsBefore(sender: (Notification, nat) -> bool, n: Notification, attempt: nat) {
    forall b: nat | b < attempt :: !sender(n, b)
  }

  predicate WorkerFollows(c: Config, sender: (Notification, nat) -> bool, x: Worker) {
    match x
    case Sending(n, attempt) => FailsBefore(sender, n, attempt)
    case Counting(n, attempt, ok) => FailsBefore(sender, n, attempt) && ok == sender(n, attempt)
    case Waiting(n, attempt) => FailsBefore(sender, n, attempt)
    case Exhausted(n) => !Sendable(c, sender, n)
    case Enqueuing(n) => !Sendable(c, sender, n)
    case _ => true
  }

  /** The state could have been reached with Send answering as `sender` does. */
  predicate Follows(c: Config, sender: (Notification, nat) -> bool, s: State) {
    && (forall w | 0 <= w < |s.workers| :: WorkerFollows(c, sender, s.workers[w]))
    && (forall i | 0 <= i < |s.log.delivered| :: Sendable(c, sender, s.log.delivered[i]))
    && (forall i | 0 <= i < |s.log.drained| :: !Sendable(c, sender, s.log.drained[i]))
    && (forall i | 0 <= i < |s.queue| :: !Sendable(c, sender, s.queue[i]))
  }

  predicate Answers(sender: (Notification, nat) -> bool, s: State, a: Action) {
    a.SendReturns? && a.w < |s.workers| && s.workers[a.w].Sending? ==>
      a.ok == sender(s.workers[a.w].n, s.workers[a.w].attempt)
  }

  lemma WorkerFollowsStep(c: Config, sender: (Notification, nat) -> bool, s: State, a: Action)
    requires Shape(c, s) && Follows(c, sender, s) && Answers(sender, s, a)
    requires MovesWorker(a) && a.w < |s.workers| && WorkerStep(c, s, a).Some?
    ensures WorkerFollows(c, sender, WorkerStep(c, s, a).value.workers[a.w])
    ensures a.Count? && s.workers[a.w].sendOk ==> Sendable(c, sender, s.workers[a.w].n)
  {
    assert WorkerOk(c, s.workers[a.w]) && WorkerFollows(c, sender, s.workers[a.w]);
  }

  /** What a step adds to the lists is what the worker followed the sender with. */
  lemma ListsFollow(c: Config, sender: (Notification, nat) -> bool, s: State, a: Action)
    requires Shape(c, s) && Follows(c, sender, s) && Answers(sender, s, a) && Step(c, s, a).Some?
    ensures var t := Step(c, s, a).value;
            && (forall i | 0 <= i < |t.log.delivered| :: Sendable(c, sender, t.log.delivered[i]))
            && (forall i | 0 <= i < |t.log.drained| :: !Sendable(c, sender, t.log.drained[i]))
            && (forall i | 0 <= i < |t.queue| :: !Sendable(c, sender, t.queue[i]))
  {
    if MovesWorker(a) {
      WorkerFollowsStep(c, sender, s, a);
      assert WorkerFollows(c, sender, s.workers[a.w]);
    }
  }

  lemma FollowsStep(c: Config, sender: (Notification, nat) -> bool, s: State, a: Action)
    requires Shape(c, s) && Follows(c, sender, s) && Answers(sender, s, a) && Step(c, s, a).Some?
    ensures Follows(c, sender, Step(c, s, a).value)
  {
    OnlyOneWorkerMoves(c, s, a);
    ListsFollow(c, sender, s, a);
    if MovesWorker(a) {
      WorkerFollowsStep(c, sender, s, a);
    }
  }

  /** Every Send of the run answers as `sender` does. */
  ghost predicate AnsweredBy(c: Config, sender: (Notification, nat) -> bool, s: State, schedule: seq<Action>)
    decreases schedule
  {
    schedule != [] ==>
      && Answers(sender, s, schedule[0])
      && (Step(c, s, schedule[0]).Some? ==> AnsweredBy(c, sender, Step(c, s, schedule[0]).value, schedule[1..]))
  }

  lemma {:induction false} FollowsReplay(c: Config, sender: (Notification, nat) -> bool, s: State,
                                         schedule: seq<Action>)
    requires Shape(c, s) && Follows(c, sender, s) && AnsweredBy(c, sender, s, schedule)
    requires Replay(c, s, schedule).Some?
    ensures Follows(c, sender, Replay(c, s, schedule).value)
    decreases schedule
  {
    if schedule != [] {
      FollowsStep(c, sender, s, schedule[0]);
      ShapeStep(c, s, schedule[0]);
      FollowsReplay(c, sender, Step(c, s, schedule[0]).value, schedule[1..]);
    }
  }

  /**
   At any moment of any run, cancelled or not, whatever was delivered is sendable and whatever went on
   the dead-letter channel is not: no allowed attempt of it succeeds.
   */
  lemma OutcomesFollowTheSender(c: Config, sender: (Notification, nat) -> bool, schedule: seq<Action>, s: State)
    requires Reaches(c, schedule, s) && AnsweredBy(c, sender, Init(c), schedule)
    ensures forall n | n in s.log.delivered :: Sendable(c, sender, n)
    ensures forall n | n in Carried(s) :: !Sendable(c, sender, n)
    ensures Follows(c, sender, s)
  {
    InitInv(c);
    FollowsReplay(c, sender, Init(c), schedule);
  }

  /** What an invariant state with all workers gone says about one notification. */
  lemma SplitBySendability(c: Config, sender: (Notification, nat) -> bool, s: State, n: Notification)
    requires Inv(c, s) && Follows(c, sender, s)
    requires AllExited(s.workers) && !s.cancelled && s.taken == |s.offered|
    ensures Copies(Carried(s), n) == if Sendable(c, sender, n) then 0 else Copies(s.offered, n)
    ensures Copies(s.log.delivered, n) == if Sendable(c, sender, n) then Copies(s.offered, n) else 0
  {
    ExitedWorkersHoldNothing(c, s);
    assert ConservedAt(s, n);
    assert s.offered[..s.taken] == s.offered;
    if Sendable(c, sender, n) {
      assert n !in Carried(s);
    } else {
      assert n !in s.log.delivered;
    }
  }

  /**
   With a fixed sender the dead letters of every uncancelled run are exactly the unsendable inputs and
   the delivered ones exactly the sendable, whatever the interleaving of workers, senders and drainer.
   */
  lemma DeadLettersAreTheUnsendable(c: Config, sender: (Notification, nat) -> bool, schedule: seq<Action>, s: State,
                                    n: Notification)
    requires c.workers >= 1 && Reaches(c, schedule, s) && AnsweredBy(c, sender, Init(c), schedule)
    requires s.deadCloses > 0 && !s.cancelled
    ensures Copies(Carried(s), n) == if Sendable(c, sender, n) then 0 else Copies(s.offered, n)
    ensures Copies(s.log.delivered, n) == if Sendable(c, sender, n) then Copies(s.offered, n) else 0
  {
    ReachableInv(c, schedule, s);
    UncancelledRunDrains(c, schedule, s);
    OutcomesFollowTheSender(c, sender, schedule, s);
    SplitBySendability(c, sender, s, n);
  }

  // ----- progress -----

  /** A worker that can only wait: for the input, or for room in the dead-letter channel. */
  predicate Blocked(s: State, x: Worker) {
    || x.Exited?
    || (!s.cancelled && x.Selecting? && !s.inClosed && s.taken == |s.offered|)
    || (!s.cancelled && x.Enqueuing? && |s.queue| == 64)
  }

  predicate Stopped(s: State) {
    || s.deadCloses == 1
    || (!AllExited(s.workers) && forall w | 0 <= w < |s.workers| :: Blocked(s, s.workers[w]))
  }

  /** The next step of one worker, when `Send` answers `ok`. */
  function Next(c: Config, s: State, w: nat, ok: bool): Action
    requires w < |s.workers|
  {
    match s.workers[w]
    case Selecting =>
      if s.taken < |s.offered| then Take(w) else if s.inClosed then LeaveDrained(w) else LeaveCancelled(w)
    case Sending(_, _) => SendReturns(w, ok)
    case Counting(_, _, _) => Count(w)
    case Waiting(_, _) => TimerFires(w)
    case Exhausted(_) => CountDead(w)
    case Enqueuing(_) => if |s.queue| < DEAD_CAPACITY then Enqueue(w) else Forsake(w)
    case Exited => CloseDead
  }

  lemma UnblockedCanStep(c: Config, s: State, w: nat) returns (a: Action)
    requires Shape(c, s) && w < |s.workers| && !Blocked(s, s.workers[w])
    ensures Internal(a) && Step(c, s, a).Some?
  {
    a := Next(c, s, w, true);
  }

  lemma BlockedCannotStep(c: Config, s: State, a: Action)
    requires Stopped(s) && Shape(c, s) && Internal(a)
    ensures Step(c, s, a).None?
  {
    if MovesWorker(a) && a.w < |s.workers| {
      assert s.workers[a.w].Exited? || Blocked(s, s.workers[a.w]);
    }
  }

  /**
   The dispatcher can take no step exactly when Run has returned, or nothing is cancelled and every
   remaining worker waits on an open empty input or on a full dead-letter channel.
   */
  lemma StuckIffStopped(c: Config, schedule: seq<Action>, s: State)
    requires Reaches(c, schedule, s)
    ensures (forall a :: Step(c, s, a).Some? ==> !Internal(a)) <==> Stopped(s)
  {
    ReachableInv(c, schedule, s);
    if Stopped(s) {
      forall a | Internal(a) ensures Step(c, s, a).None? {
        BlockedCannotStep(c, s, a);
      }
    } else if AllExited(s.workers) {
      assert Step(c, s, CloseDead).Some?;
    } else {
      var w :| 0 <= w < |s.workers| && !Blocked(s, s.workers[w]);
      var a := UnblockedCanStep(c, s, w);
    }
  }

  /** A dead letter can be put on the channel exactly while fewer than 64 are buffered. */
  lemma EnqueueIffRoom(c: Config, s: State, w: nat)
    requires w < |s.workers| && s.workers[w].Enqueuing?
    ensures Step(c, s, Enqueue(w)).Some? <==> |s.queue| < 64
    ensures |s.queue| < 64 ==> Step(c, s, Enqueue(w)).value.queue == s.queue + [s.workers[w].n]
  {
  }

  /** Every ready arm of a select can be taken, and Send may return anything. */
  lemma ReadyArms(c: Config, s: State, w: nat, ok: bool)
    requires w < |s.workers|
    ensures Step(c, s, Take(w)).Some? <==> s.workers[w].Selecting? && s.taken < |s.offered|
    ensures Step(c, s, LeaveDrained(w)).Some? <==> s.workers[w].Selecting? && s.inClosed && s.taken == |s.offered|
    ensures Step(c, s, LeaveCancelled(w)).Some? <==> s.workers[w].Selecting? && s.cancelled
    ensures Step(c, s, SendReturns(w, ok)).Some? <==> s.workers[w].Sending?
    ensures Step(c, s, TimerFires(w)).Some? <==> s.workers[w].Waiting?
    ensures Step(c, s, GiveUp(w)).Some? <==> s.workers[w].Waiting? && s.cancelled
    ensures Step(c, s, Forsake(w)).Some? <==> s.workers[w].Enqueuing? && s.cancelled
    ensures Step(c, s, Drain).Some? <==> s.queue != []
    ensures Step(c, s, CancelContext).Some? <==> !s.cancelled
  {
  }

  // ----- a run that nobody drains -----

  /** The inputs no allowed attempt can send, in order. */
  function Unsendables(c: Config, sender: (Notification, nat) -> bool, xs: seq<Notification>): seq<Notification> {
    if xs == [] then []
    else (if Sendable(c, sender, xs[0]) then [] else [xs[0]]) + Unsendables(c, sender, xs[1..])
  }

  lemma {:induction false} UnsendableCopies(c: Config, sender: (Notification, nat) -> bool, xs: seq<Notification>,
                                            n: Notification)
    ensures Copies(Unsendables(c, sender, xs), n) == if Sendable(c, sender, n) then 0 else Copies(xs, n)
  {
    if xs != [] {
      UnsendableCopies(c, sender, xs[1..], n);
      assert xs == [xs[0]] + xs[1..];
    }
  }

  lemma PrefixCopies(xs: seq<Notification>, k: nat, n: Notification)
    requires k <= |xs|
    ensures Copies(xs[..k], n) <= Copies(xs, n)
  {
    assert xs == xs[..k] + xs[k..];
  }

  /** A worker that holds a dead letter holds one more than are on the channel. */
  lemma HeldIsOneMore(c: Config, sender: (Notification, nat) -> bool, s: State, w: nat)
    requires Inv(c, s) && Follows(c, sender, s) && w < |s.workers| && s.workers[w].Enqueuing?
    ensures |Carried(s)| < |Unsendables(c, sender, s.offered)|
  {
    var dead, all := Carried(s) + [s.workers[w].n], Unsendables(c, sender, s.offered);
    forall n
      ensures multiset(dead)[n] <= multiset(all)[n]
    {
      UnsendableCopies(c, sender, s.offered, n);
      if n in dead {
        assert WorkerFollows(c, sender, s.workers[w]);
        assert ConservedAt(s, n);
        TotalUpdate(s.workers, w, Exited, Holds(n));
        PrefixCopies(s.offered, s.taken, n);
        CopiesSnoc(Carried(s), s.workers[w].n, n);
      }
    }
    assert multiset(dead) <= multiset(all);
    assert |multiset(dead)| == |dead| && |multiset(all)| == |all|;
    FewerInASubset(multiset(dead), multiset(all));
  }

  lemma FewerInASubset(a: multiset<Notification>, b: multiset<Notification>)
    requires a <= b
    ensures |a| <= |b|
  {
    assert b == a + (b - a);
  }

  lemma ReturnedDeadLetters(c: Config, sender: (Notification, nat) -> bool, schedule: seq<Action>, s: State)
    requires c.workers >= 1 && Reaches(c, schedule, s) && AnsweredBy(c, sender, Init(c), schedule)
    requires s.deadCloses > 0 && !s.cancelled
    ensures multiset(Carried(s)) == multiset(Unsendables(c, sender, s.offered))
  {
    forall n
      ensures multiset(Carried(s))[n] == multiset(Unsendables(c, sender, s.offered))[n]
    {
      DeadLettersAreTheUnsendable(c, sender, schedule, s, n);
      UnsendableCopies(c, sender, s.offered, n);
    }
  }

  lemma {:induction false} NothingDrained(c: Config, s: State, schedule: seq<Action>, t: State)
    requires Replay(c, s, schedule) == Some(t) && Drain !in schedule
    ensures t.log.drained == s.log.drained
    decreases schedule
  {
    if schedule != [] {
      assert !schedule[0].Drain?;
      NothingDrained(c, Step(c, s, schedule[0]).value, schedule[1..], t);
    }
  }

  /**
   Without a drainer: when an uncancelled run over a closed input has come to a stop, Run has returned
   exactly when at most 64 notifications cannot be sent. With more it waits for ever.
   */
  lemma UndrainedRunReturnsIff(c: Config, sender: (Notification, nat) -> bool, schedule: seq<Action>, s: State)
    requires c.workers >= 1 && Reaches(c, schedule, s) && AnsweredBy(c, sender, Init(c), schedule)
    requires Drain !in schedule && s.inClosed && !s.cancelled
    requires forall a :: Step(c, s, a).Some? ==> !Internal(a)
    ensures s.deadCloses == 1 <==> |Unsendables(c, sender, s.offered)| <= 64
  {
    ReachableInv(c, schedule, s);
    StuckIffStopped(c, schedule, s);
    NothingDrained(c, Init(c), schedule, s);
    if s.deadCloses == 1 {
      ReturnedDeadLetters(c, sender, schedule, s);
      assert |Unsendables(c, sender, s.offered)| == |multiset(Carried(s))| == |s.queue|;
    } else {
      var w :| 0 <= w < |s.workers| && !s.workers[w].Exited?;
      assert Blocked(s, s.workers[w]);
      OutcomesFollowTheSender(c, sender, schedule, s);
      HeldIsOneMore(c, sender, s, w);
    }
  }

  /** And up to 64 notifications never jam it, whatever Send answers and whoever drains. */
  lemma SmallInputNeverJams(c: Config, schedule: seq<Action>, s: State)
    requires c.workers >= 1 && Reaches(c, schedule, s) && s.inClosed && !s.cancelled && |s.offered| <= 64
    ensures (forall a :: Step(c, s, a).Some? ==> !Internal(a)) <==> s.deadCloses == 1
  {
    ReachableInv(c, schedule, s);
    StuckIffStopped(c, schedule, s);
    if Stopped(s) && s.deadCloses != 1 {
      var w :| 0 <= w < |s.workers| && !s.workers[w].Exited?;
      assert Blocked(s, s.workers[w]);
      TotalUpdate(s.workers, w, Exited, AwaitsQueue);
      assert false;
    }
  }

  // ----- when a worker ends -----

  lemma {:induction false} ExitsInReplay(c: Config, s: State, schedule: seq<Action>, t: State, w: nat)
    requires Replay(c, s, schedule) == Some(t) && w < |s.workers|
    ensures |t.workers| == |s.workers|
    ensures t.workers[w].Exited? <==>
            s.workers[w].Exited? || LeaveDrained(w) in schedule || LeaveCancelled(w) in schedule
    decreases schedule
  {
    if schedule != [] {
      var u := Step(c, s, schedule[0]).value;
      OnlyOneWorkerMoves(c, s, schedule[0]);
      assert schedule == [schedule[0]] + schedule[1..];
      assert u.workers[w].Exited? <==>
             s.workers[w].Exited? || schedule[0] == LeaveDrained(w) || schedule[0] == LeaveCancelled(w);
      ExitsInReplay(c, u, schedule[1..], t, w);
    }
  }

  /**
   A worker ends only in its own select, on a drained input or a done context: after a delivery, a dead
   letter or a notification it gave up it always goes back for more.
   */
  lemma WorkersEndInTheirSelect(c: Config, schedule: seq<Action>, s: State, w: nat)
    requires Reaches(c, schedule, s) && w < |s.workers|
    ensures s.workers[w].Exited? <==> LeaveDrained(w) in schedule || LeaveCancelled(w) in schedule
  {
    ReachableInv(c, schedule, s);
    ExitsInReplay(c, Init(c), schedule, s, w);
  }

  /** Steps left to a worker that takes every ctx.Done() arm. */
  function Escape(x: Worker): nat {
    match x
    case Exited => 0
    case Selecting => 1
    case Enqueuing(_) => 2
    case Waiting(_, _) => 2
    case Exhausted(_) => 3
    case Counting(_, _, _) => 4
    case Sending(_, _) => 5
  }

  function Flee(x: Worker, w: nat, ok: bool): Action {
    match x
    case Sending(_, _) => SendReturns(w, ok)
    case Counting(_, _, _) => Count(w)
    case Waiting(_, _) => GiveUp(w)
    case Exhausted(_) => CountDead(w)
    case Enqueuing(_) => Forsake(w)
    case _ => LeaveCancelled(w)
  }

  lemma FleeingIsEnabled(c: Config, s: State, w: nat, ok: bool)
    requires s.cancelled && w < |s.workers| && !s.workers[w].Exited?
    ensures var a := Flee(s.workers[w], w, ok);
            Step(c, s, a).Some? &&
            var t := Step(c, s, a).value;
            && t.cancelled && t.deadCloses == s.deadCloses
            && |t.workers| == |s.workers| && t.workers == s.workers[w := t.workers[w]]
            && Escape(t.workers[w]) < Escape(s.workers[w])
  {
  }

  /**
   After cancellation every worker has a path out, whatever the input, the drainer and the pending
   sends do (`answers` says how each worker's pending Send ends): no environment step is needed.
   */
  lemma {:induction false} CancelledCanFinish(c: Config, s: State, answers: nat -> bool)
    returns (schedule: seq<Action>, t: State)
    requires s.cancelled && s.deadCloses <= 1
    ensures Replay(c, s, schedule) == Some(t) && t.deadCloses >= 1
    ensures |schedule| <= Total(s.workers, Escape) + 1
    ensures forall i | 0 <= i < |schedule| :: Internal(schedule[i]) && !schedule[i].Take?
    ensures forall i | 0 <= i < |schedule| && schedule[i].SendReturns? :: schedule[i].ok == answers(schedule[i].w)
    decreases Total(s.workers, Escape)
  {
    if w :| 0 <= w < |s.workers| && !s.workers[w].Exited? {
      var a := Flee(s.workers[w], w, answers(w));
      FleeingIsEnabled(c, s, w, answers(w));
      var u := Step(c, s, a).value;
      TotalUpdate(s.workers, w, u.workers[w], Escape);
      var rest;
      rest, t := CancelledCanFinish(c, u, answers);
      schedule := [a] + rest;
      assert schedule[1..] == rest;
    } else if s.deadCloses == 0 {
      schedule, t := [CloseDead], Step(c, s, CloseDead).value;
      assert schedule[1..] == [];
    } else {
      schedule, t := [], s;
    }
  }

  // ----- termination -----

  /** Steps left to a worker whose notification may use `m` attempts. */
  function Effort(m: nat): Worker -> nat {
    (x: Worker) => match x
      case Exited => 0
      case Selecting => 1
      case Enqueuing(_) => 3
      case Exhausted(_) => 4
      case Counting(_, attempt, _) => if attempt < m then 3 * (m - attempt) + 2 else 0
      case Sending(_, attempt) => if attempt < m then 3 * (m - attempt) + 3 else 0
      case Waiting(_, attempt) => if attempt < m then 3 * (m - attempt) + 4 else 0
  }

  /** Steps a notification costs from the moment it is taken. */
  function ItemCost(c: Config): nat {
    3 * Attempts(c) + 4
  }

  function Measure(c: Config, s: State): nat
    requires s.taken <= |s.offered|
  {
    Times(ItemCost(c), |s.offered| - s.taken) + Total(s.workers, Effort(Attempts(c))) + |s.queue|
    + (if s.inClosed then 0 else 1) + (if s.cancelled then 0 else 1) + (if s.deadCloses == 0 then 1 else 0)
  }

  lemma EffortFalls(c: Config, s: State, a: Action)
    requires Shape(c, s) && MovesWorker(a) && a.w < |s.workers| && WorkerStep(c, s, a).Some?
    ensures var t, effort := WorkerStep(c, s, a).value, Effort(Attempts(c));
            && (t.offered, t.inClosed, t.cancelled, t.deadCloses) == (s.offered, s.inClosed, s.cancelled, s.deadCloses)
            && t.taken - s.taken == (if a.Take? then 1 else 0)
            && effort(t.workers[a.w]) + |t.queue|
               < effort(s.workers[a.w]) + |s.queue| + if a.Take? then ItemCost(c) else 0
  {
    assert WorkerOk(c, s.workers[a.w]);
  }

  lemma WorkerLowersMeasure(c: Config, s: State, a: Action)
    requires Shape(c, s) && MovesWorker(a) && a.w < |s.workers| && WorkerStep(c, s, a).Some?
    requires s.taken <= WorkerStep(c, s, a).value.taken <= |s.offered|
    requires WorkerStep(c, s, a).value.workers == s.workers[a.w := WorkerStep(c, s, a).value.workers[a.w]]
    ensures WorkerStep(c, s, a).value.taken <= |WorkerStep(c, s, a).value.offered|
    ensures Measure(c, WorkerStep(c, s, a).value) < Measure(c, s)
  {
    EffortFalls(c, s, a);
    TotalUpdate(s.workers, a.w, WorkerStep(c, s, a).value.workers[a.w], Effort(Attempts(c)));
  }

  lemma StepLowersMeasure(c: Config, s: State, a: Action)
    requires Shape(c, s) && Step(c, s, a).Some?
    ensures Shape(c, Step(c, s, a).value)
    ensures Measure(c, Step(c, s, a).value) < Measure(c, s) + if a.Offer? then ItemCost(c) + 1 else 0
  {
    ShapeStep(c, s, a);
    OnlyOneWorkerMoves(c, s, a);
    if MovesWorker(a) {
      EffortFalls(c, s, a);
      WorkerLowersMeasure(c, s, a);
    }
  }

  function Offers(schedule: seq<Action>): nat {
    if schedule == [] then 0 else (if schedule[0].Offer? then 1 else 0) + Offers(schedule[1..])
  }

  lemma {:induction false} ReplayBounded(c: Config, s: State, schedule: seq<Action>)
    requires Shape(c, s) && Replay(c, s, schedule).Some?
    ensures |schedule| <= Measure(c, s) + Times(ItemCost(c) + 1, Offers(schedule))
    decreases schedule
  {
    if schedule != [] {
      StepLowersMeasure(c, s, schedule[0]);
      ReplayBounded(c, Step(c, s, schedule[0]).value, schedule[1..]);
    }
  }

  /** Finitely many notifications give finite runs: `k` steps each, one a worker and three more. */
  lemma EveryRunIsFinite(c: Config, schedule: seq<Action>, k: nat)
    requires Replay(c, Init(c), schedule).Some? && k == ItemCost(c) + 1
    ensures |schedule| <= k * Offers(schedule) + Pool(c) + 3
  {
    InitInv(c);
    ReplayBounded(c, Init(c), schedule);
    TotalUniform(Init(c).workers, Effort(Attempts(c)), 1);
    TimesIsProduct(k, Offers(schedule));
  }
}
