/** The dispatcher's counters with a fixed sender: they do not depend on the schedule at all. */
module DispatcherAttempts {
  import opened Prelude
  import opened Dispatcher
  import opened DispatcherResults

  /** The first attempt in `from..limit` that succeeds, or `limit`. */
  function FirstSuccess(sender: (Notification, nat) -> bool, n: Notification, from: nat, limit: nat): (k: nat)
    requires from <= limit
    ensures from <= k <= limit && (k < limit ==> sender(n, k))
    ensures forall b: nat | from <= b < k :: !sender(n, b)
    decreases limit - from
  {
    if from == limit || sender(n, from) then from else FirstSuccess(sender, n, from + 1, limit)
  }

  /** How many sends of a notification fail: all allowed ones, or those before the first that succeeds. */
  function Failures(c: Config, sender: (Notification, nat) -> bool): Notification -> nat {
    n => FirstSuccess(sender, n, 0, Attempts(c))
  }

  /** The inputs some allowed attempt can send, in order. */
  function Sendables(c: Config, sender: (Notification, nat) -> bool, xs: seq<Notification>): seq<Notification> {
    if xs == [] then []
    else (if Sendable(c, sender, xs[0]) then [xs[0]] else []) + Sendables(c, sender, xs[1..])
  }

  lemma {:induction false} SendableCopies(c: Config, sender: (Notification, nat) -> bool, xs: seq<Notification>,
                                          n: Notification)
    ensures Copies(Sendables(c, sender, xs), n) == if Sendable(c, sender, n) then Copies(xs, n) else 0
  {
    if xs != [] {
      SendableCopies(c, sender, xs[1..], n);
      assert xs == [xs[0]] + xs[1..];
    }
  }

  // ----- sums do not depend on the order -----

  lemma {:induction false} TotalWithout<A>(xs: seq<A>, i: nat, weight: A -> nat)
    requires i < |xs|
    ensures Total(xs, weight) == weight(xs[i]) + Total(xs[..i] + xs[i + 1..], weight)
  {
    var rest := xs[..i] + xs[i + 1..];
    if i == 0 {
      assert rest == xs[1..];
    } else {
      assert rest[0] == xs[0] && rest[1..] == xs[1..][..i - 1] + xs[1..][i..];
      TotalWithout(xs[1..], i - 1, weight);
    }
  }

  lemma WithoutOne(xs: seq<Notification>, i: nat)
    requires i < |xs|
    ensures multiset(xs[..i] + xs[i + 1..]) == multiset(xs) - multiset{xs[i]}
  {
    assert xs == xs[..i] + [xs[i]] + xs[i + 1..];
  }

  lemma Somewhere(xs: seq<Notification>, n: Notification) returns (i: nat)
    requires n in multiset(xs)
    ensures i < |xs| && xs[i] == n
  {
    i :| 0 <= i < |xs| && xs[i] == n;
  }

  lemma {:induction false} TotalPermutes(xs: seq<Notification>, ys: seq<Notification>, weight: Notification -> nat)
    requires multiset(xs) == multiset(ys)
    ensures Total(xs, weight) == Total(ys, weight)
    decreases |xs|
  {
    if xs == [] {
      assert |multiset(ys)| == |ys|;
    } else {
      var i := Somewhere(ys, xs[0]);
      TotalWithout(ys, i, weight);
      TotalWithout(xs, 0, weight);
      WithoutOne(ys, i);
      WithoutOne(xs, 0);
      TotalPermutes(xs[..0] + xs[1..], ys[..i] + ys[i + 1..], weight);
    }
  }

  /** What all inputs cost together: the sendable ones their failures, the others every attempt. */
  lemma {:induction false} FailuresSplit(c: Config, sender: (Notification, nat) -> bool, xs: seq<Notification>)
    ensures Total(xs, Failures(c, sender))
         == Total(Sendables(c, sender, xs), Failures(c, sender)) + Times(Attempts(c), |Unsendables(c, sender, xs)|)
  {
    if xs != [] {
      FailuresSplit(c, sender, xs[1..]);
      FailuresOfOne(c, sender, xs[0]);
      var s, u := Sendables(c, sender, xs[1..]), Unsendables(c, sender, xs[1..]);
      if Sendable(c, sender, xs[0]) {
        assert ([xs[0]] + s)[1..] == s;
      } else {
        assert Sendables(c, sender, xs) == s && |Unsendables(c, sender, xs)| == |u| + 1;
      }
    }
  }

  lemma FailuresOfOne(c: Config, sender: (Notification, nat) -> bool, n: Notification)
    ensures Sendable(c, sender, n) <==> Failures(c, sender)(n) < Attempts(c)
  {
  }

  // ----- the counter of failures -----

  /** Counted failures are those of the delivered, of the dead and of what the workers still try. */
  predicate Exact(c: Config, sender: (Notification, nat) -> bool, s: State) {
    s.metrics.failed == Total(s.log.delivered, Failures(c, sender)) + Times(Attempts(c), s.metrics.deadLettered)
                        + Total(s.workers, FailuresInHand(Attempts(c)))
  }

  /** A delivered notification had failed as often as the sender fails it. */
  lemma DeliveredAfterItsFailures(c: Config, sender: (Notification, nat) -> bool, x: Worker)
    requires WorkerOk(c, x) && WorkerFollows(c, sender, x) && x.Counting? && x.sendOk
    ensures Failures(c, sender)(x.n) == x.attempt
  {
    var k := FirstSuccess(sender, x.n, 0, Attempts(c));
    assert k <= x.attempt;
  }

  lemma ExactMove(c: Config, sender: (Notification, nat) -> bool, s: State, a: Action)
    requires Shape(c, s) && Follows(c, sender, s) && MovesWorker(a) && a.w < |s.workers|
    requires WorkerStep(c, s, a).Some? && !s.cancelled
    ensures var t, m := WorkerStep(c, s, a).value, Attempts(c);
            var inHand: int := FailuresInHand(m)(t.workers[a.w]) - FailuresInHand(m)(s.workers[a.w]);
            t.metrics.failed - s.metrics.failed
            == Total(t.log.delivered, Failures(c, sender)) - Total(s.log.delivered, Failures(c, sender))
               + (if t.metrics.deadLettered > s.metrics.deadLettered then m else 0) + inHand
            && s.metrics.deadLettered <= t.metrics.deadLettered <= s.metrics.deadLettered + 1
  {
    var x := s.workers[a.w];
    assert WorkerOk(c, x) && WorkerFollows(c, sender, x);
    if a.Count? && x.sendOk {
      DeliveredAfterItsFailures(c, sender, x);
      TotalAppend(s.log.delivered, x.n, Failures(c, sender));
    }
  }

  lemma ExactStep(c: Config, sender: (Notification, nat) -> bool, s: State, a: Action)
    requires Shape(c, s) && Follows(c, sender, s) && Exact(c, sender, s) && Step(c, s, a).Some? && !s.cancelled
    ensures Exact(c, sender, Step(c, s, a).value)
  {
    var t := Step(c, s, a).value;
    OnlyOneWorkerMoves(c, s, a);
    if MovesWorker(a) {
      ExactMove(c, sender, s, a);
      TotalUpdate(s.workers, a.w, t.workers[a.w], FailuresInHand(Attempts(c)));
    }
  }

  lemma CancelledStays(c: Config, s: State, a: Action)
    requires Step(c, s, a).Some? && s.cancelled
    ensures Step(c, s, a).value.cancelled
  {
  }

  lemma {:induction false} ExactReplay(c: Config, sender: (Notification, nat) -> bool, s: State, schedule: seq<Action>)
    requires Shape(c, s) && Follows(c, sender, s) && (!s.cancelled ==> Exact(c, sender, s))
    requires AnsweredBy(c, sender, s, schedule) && Replay(c, s, schedule).Some?
    ensures var t := Replay(c, s, schedule).value;
            !t.cancelled ==> Exact(c, sender, t)
    decreases schedule
  {
    if schedule != [] {
      var a := schedule[0];
      ShapeStep(c, s, a);
      FollowsStep(c, sender, s, a);
      if s.cancelled {
        CancelledStays(c, s, a);
      } else {
        ExactStep(c, sender, s, a);
      }
      ExactReplay(c, sender, Step(c, s, a).value, schedule[1..]);
    }
  }

  lemma StartsExact(c: Config, sender: (Notification, nat) -> bool)
    ensures Exact(c, sender, Init(c))
  {
    TotalUniform(Init(c).workers, FailuresInHand(Attempts(c)), 0);
  }

  /** The counters of a finished uncancelled run are those of the input and the sender alone. */
  predicate CountersFollow(c: Config, sender: (Notification, nat) -> bool, input: seq<Notification>, m: Metrics) {
    && m.sent == |Sendables(c, sender, input)|
    && m.deadLettered == |Unsendables(c, sender, input)|
    && m.failed == Total(input, Failures(c, sender))
  }

  lemma FinishedCounters(c: Config, sender: (Notification, nat) -> bool, s: State)
    requires Inv(c, s) && Follows(c, sender, s) && Exact(c, sender, s)
    requires AllExited(s.workers) && !s.cancelled && s.taken == |s.offered|
    ensures CountersFollow(c, sender, s.offered, s.metrics)
  {
    var sent, dead := Sendables(c, sender, s.offered), Unsendables(c, sender, s.offered);
    ExitedWorkersHoldNothing(c, s);
    forall n
      ensures multiset(s.log.delivered)[n] == multiset(sent)[n] && multiset(Carried(s))[n] == multiset(dead)[n]
    {
      SplitBySendability(c, sender, s, n);
      SendableCopies(c, sender, s.offered, n);
      UnsendableCopies(c, sender, s.offered, n);
    }
    assert multiset(s.log.delivered) == multiset(sent) && multiset(Carried(s)) == multiset(dead);
    assert |sent| == |multiset(sent)| == |s.log.delivered| && |dead| == |multiset(dead)| == |Carried(s)|;
    TotalPermutes(s.log.delivered, sent, Failures(c, sender));
    FailuresSplit(c, sender, s.offered);
  }

  /**
   With a fixed sender every uncancelled run ends with the same counters: Sent and DeadLettered count
   the sendable and the unsendable inputs, and Failed adds up each input's sends before its first
   success, or all its attempts.
   */
  lemma CountersDoNotDependOnTheSchedule(c: Config, sender: (Notification, nat) -> bool, schedule: seq<Action>,
                                         s: State)
    requires c.workers >= 1 && Reaches(c, schedule, s) && AnsweredBy(c, sender, Init(c), schedule)
    requires s.deadCloses > 0 && !s.cancelled
    ensures CountersFollow(c, sender, s.offered, s.metrics)
  {
    InitInv(c);
    StartsExact(c, sender);
    ExactReplay(c, sender, Init(c), schedule);
    ReachableInv(c, schedule, s);
    UncancelledRunDrains(c, schedule, s);
    OutcomesFollowTheSender(c, sender, schedule, s);
    FinishedCounters(c, sender, s);
  }
}
