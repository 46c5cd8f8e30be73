/** The dispatcher as mutable state: counters are incremented and channels and workers updated in place. */
module DispatcherRun {
  import opened Prelude
  import opened Dispatcher
  import opened DispatcherResults
  import opened DispatcherAttempts

  class Machine {
    const c: Config
    var offered: seq<Notification>
    var inClosed: bool
    var taken: nat
    const workers: array<Worker>
    var sent: nat
    var failed: nat
    var deadLettered: nat
    var queue: seq<Notification>
    var cancelled: bool
    var deadCloses: nat
    ghost var log: Log

    ghost function View(): State
      reads this, workers
    {
      State(offered, inClosed, taken, workers[..], Metrics(sent, failed, deadLettered), queue, cancelled,
            deadCloses, log)
    }

    constructor (c: Config)
      ensures fresh(workers) && this.c == c && View() == Init(c)
    {
      this.c := c;
      offered, inClosed, taken, queue, cancelled, deadCloses := [], false, 0, [], false, 0;
      sent, failed, deadLettered, log := 0, 0, 0, Log(0, [], [], [], []);
      workers := new Worker[Pool(c)](_ => Selecting);
      new;
      assert workers[..] == Init(c).workers;
    }

    // ----- the environment -----

    method Offer(m: Notification)
      requires Step(c, View(), Action.Offer(m)).Some?
      modifies this
      ensures View() == Step(c, old(View()), Action.Offer(m)).value
    {
      offered := offered + [m];
    }

    method CloseInput()
      requires Step(c, View(), Action.CloseInput).Some?
      modifies this
      ensures View() == Step(c, old(View()), Action.CloseInput).value
    {
      inClosed := true;
    }

    method CancelContext()
      requires Step(c, View(), Action.CancelContext).Some?
      modifies this
      ensures View() == Step(c, old(View()), Action.CancelContext).value
    {
      cancelled := true;
    }

    /** The drainer reads one dead letter. */
    method Drain() returns (n: Notification)
      requires Step(c, View(), Action.Drain).Some?
      modifies this
      ensures View() == Step(c, old(View()), Action.Drain).value && n == old(queue)[0]
    {
      n := queue[0];
      log := log.(drained := log.drained + [n]);
      queue := queue[1..];
    }

    // ----- worker and process -----

    method Take(w: nat)
      requires Step(c, View(), Action.Take(w)).Some?
      modifies this, workers
      ensures View() == Step(c, old(View()), Action.Take(w)).value
    {
      workers[w] := Begin(c, offered[taken]);
      taken := taken + 1;
    }

    method SendReturns(w: nat, ok: bool)
      requires Step(c, View(), Action.SendReturns(w, ok)).Some?
      modifies this, workers
      ensures View() == Step(c, old(View()), Action.SendReturns(w, ok)).value
    {
      workers[w] := Counting(workers[w].n, workers[w].attempt, ok);
      log := log.(calls := log.calls + 1);
    }

    /** Bumps Sent and ends the notification, or bumps Failed and goes on to the next attempt. */
    method Count(w: nat)
      requires Step(c, View(), Action.Count(w)).Some?
      modifies this, workers
      ensures View() == Step(c, old(View()), Action.Count(w)).value
    {
      var x := workers[w];
      if x.sendOk {
        sent := sent + 1;
        log := log.(delivered := log.delivered + [x.n]);
        workers[w] := Selecting;
      } else {
        failed := failed + 1;
        workers[w] := Retry(c, x.n, x.attempt + 1);
      }
    }

    method TimerFires(w: nat)
      requires Step(c, View(), Action.TimerFires(w)).Some?
      modifies this, workers
      ensures View() == Step(c, old(View()), Action.TimerFires(w)).value
    {
      workers[w] := Sending(workers[w].n, workers[w].attempt);
    }

    method GiveUp(w: nat)
      requires Step(c, View(), Action.GiveUp(w)).Some?
      modifies this, workers
      ensures View() == Step(c, old(View()), Action.GiveUp(w)).value
    {
      log := log.(abandoned := log.abandoned + [workers[w].n]);
      workers[w] := Selecting;
    }

    /** DeadLettered is bumped before the enqueue. */
    method CountDead(w: nat)
      requires Step(c, View(), Action.CountDead(w)).Some?
      modifies this, workers
      ensures View() == Step(c, old(View()), Action.CountDead(w)).value
    {
      deadLettered := deadLettered + 1;
      workers[w] := Enqueuing(workers[w].n);
    }

    method Enqueue(w: nat)
      requires Step(c, View(), Action.Enqueue(w)).Some?
      modifies this, workers
      ensures View() == Step(c, old(View()), Action.Enqueue(w)).value
    {
      queue := queue + [workers[w].n];
      workers[w] := Selecting;
    }

    method Forsake(w: nat)
      requires Step(c, View(), Action.Forsake(w)).Some?
      modifies this, workers
      ensures View() == Step(c, old(View()), Action.Forsake(w)).value
    {
      log := log.(forsaken := log.forsaken + [workers[w].n]);
      workers[w] := Selecting;
    }

    method Leave(w: nat, a: Action)
      requires a == LeaveDrained(w) || a == LeaveCancelled(w)
      requires Step(c, View(), a).Some?
      modifies this, workers
      ensures View() == Step(c, old(View()), a).value
    {
      workers[w] := Exited;
    }

    method CloseDead()
      requires Step(c, View(), Action.CloseDead).Some?
      modifies this
      ensures View() == Step(c, old(View()), Action.CloseDead).value
    {
      deadCloses := deadCloses + 1;
    }

    /** wg.Wait() looks for a worker that has not exited. */
    method FirstActive() returns (w: nat)
      ensures w <= workers.Length
      ensures w < workers.Length ==> !workers[w].Exited?
      ensures w == workers.Length <==> AllExited(workers[..])
    {
      w := 0;
      while w < workers.Length && workers[w].Exited?
        invariant w <= workers.Length
        invariant forall k | 0 <= k < w :: workers[k].Exited?
      {
        w := w + 1;
      }
      assert w < workers.Length ==> !workers[..][w].Exited?;
    }

    /** Whether worker `a.w` can take its step `a`. */
    predicate Ready(a: Action)
      requires MovesWorker(a)
      reads this, workers
    {
      a.w < workers.Length &&
      match a
      case Take(w) => workers[w].Selecting? && taken < |offered|
      case SendReturns(w, _) => workers[w].Sending?
      case Count(w) => workers[w].Counting?
      case TimerFires(w) => workers[w].Waiting?
      case GiveUp(w) => workers[w].Waiting? && cancelled
      case CountDead(w) => workers[w].Exhausted?
      case Enqueue(w) => workers[w].Enqueuing? && |queue| < DEAD_CAPACITY
      case Forsake(w) => workers[w].Enqueuing? && cancelled
      case LeaveDrained(w) => workers[w].Selecting? && inClosed && taken == |offered|
      case LeaveCancelled(w) => workers[w].Selecting? && cancelled
    }

    /** What worker `w` does next, when `Send` answers as `sender` does. */
    method Turn(w: nat, sender: (Notification, nat) -> bool) returns (a: Action)
      requires w < workers.Length
      ensures a == Next(c, View(), w, Answer(sender, workers[w]))
    {
      var x := workers[w];
      match x {
        case Selecting =>
          a := if taken < |offered| then Action.Take(w) else if inClosed then LeaveDrained(w) else LeaveCancelled(w);
        case Sending(n, attempt) => a := Action.SendReturns(w, sender(n, attempt));
        case Counting(_, _, _) => a := Action.Count(w);
        case Waiting(_, _) => a := Action.TimerFires(w);
        case Exhausted(_) => a := Action.CountDead(w);
        case Enqueuing(_) => a := if |queue| < DEAD_CAPACITY then Action.Enqueue(w) else Action.Forsake(w);
        case Exited => a := Action.CloseDead;
      }
    }

    /** Takes a worker's step when it can be taken; otherwise nothing changes. */
    method FireWorker(a: Action) returns (ok: bool)
      requires MovesWorker(a)
      modifies this, workers
      ensures ok == Step(c, old(View()), a).Some?
      ensures View() == if ok then Step(c, old(View()), a).value else old(View())
    {
      ok := Ready(a);
      if ok {
        match a {
          case Take(w) => Take(w);
          case SendReturns(w, sendOk) => SendReturns(w, sendOk);
          case Count(w) => Count(w);
          case TimerFires(w) => TimerFires(w);
          case GiveUp(w) => GiveUp(w);
          case CountDead(w) => CountDead(w);
          case Enqueue(w) => Enqueue(w);
          case Forsake(w) => Forsake(w);
          case LeaveDrained(w) => Leave(w, a);
          case LeaveCancelled(w) => Leave(w, a);
        }
      }
    }
  }

  /** A state of an uncancelled run over the closed `input`, with Send answering as `sender` does. */
  ghost predicate Running(c: Config, input: seq<Notification>, sender: (Notification, nat) -> bool, s: State) {
    && Inv(c, s) && Follows(c, sender, s) && Exact(c, sender, s) && s.offered == input && s.inClosed && !s.cancelled
    && (c.workers < 1 ==> s.taken == 0 && s.metrics == Metrics(0, 0, 0))
  }

  /** How a worker's pending Send ends. */
  function Answer(sender: (Notification, nat) -> bool, x: Worker): bool {
    if x.Sending? then sender(x.n, x.attempt) else true
  }

  /** A worker that does not wait for room can take its next step. */
  lemma NextIsEnabled(c: Config, input: seq<Notification>, sender: (Notification, nat) -> bool, s: State, w: nat)
    requires Running(c, input, sender, s) && w < |s.workers| && !s.workers[w].Exited?
    requires !(s.workers[w].Enqueuing? && |s.queue| == DEAD_CAPACITY)
    ensures var a := Next(c, s, w, Answer(sender, s.workers[w]));
            MovesWorker(a) && Answers(sender, s, a) && Step(c, s, a).Some?
            && Step(c, s, a).value.log.drained == s.log.drained && Step(c, s, a).value.deadCloses == s.deadCloses
  {
  }

  lemma RunningStep(c: Config, input: seq<Notification>, sender: (Notification, nat) -> bool, s: State, a: Action)
    requires Running(c, input, sender, s) && Step(c, s, a).Some?
    requires (Internal(a) || a.Drain?) && Answers(sender, s, a)
    ensures Running(c, input, sender, Step(c, s, a).value)
    ensures Measure(c, Step(c, s, a).value) < Measure(c, s)
  {
    StepInv(c, s, a);
    FollowsStep(c, sender, s, a);
    ExactStep(c, sender, s, a);
    StepLowersMeasure(c, s, a);
    OnlyOneWorkerMoves(c, s, a);
    if MovesWorker(a) {
      EffortFalls(c, s, a);
    }
  }

  /** A dispatcher that has been offered `input` so far and done nothing else. */
  ghost predicate Loading(c: Config, input: seq<Notification>, sender: (Notification, nat) -> bool, s: State) {
    && Inv(c, s) && Follows(c, sender, s) && Exact(c, sender, s) && s.offered == input
    && s.taken == 0 && s.metrics == Metrics(0, 0, 0)
    && !s.inClosed && !s.cancelled && s.log.drained == [] && s.deadCloses == 0
  }

  lemma LoadingStarts(c: Config, sender: (Notification, nat) -> bool)
    ensures Loading(c, [], sender, Init(c))
  {
    InitInv(c);
    StartsExact(c, sender);
  }

  lemma LoadingStep(c: Config, input: seq<Notification>, sender: (Notification, nat) -> bool, s: State, n: Notification)
    requires Loading(c, input, sender, s)
    ensures Step(c, s, Offer(n)).Some? && Loading(c, input + [n], sender, Step(c, s, Offer(n)).value)
  {
    StepInv(c, s, Offer(n));
    FollowsStep(c, sender, s, Offer(n));
    ExactStep(c, sender, s, Offer(n));
  }

  lemma LoadingEnds(c: Config, input: seq<Notification>, sender: (Notification, nat) -> bool, s: State)
    requires Loading(c, input, sender, s)
    ensures Step(c, s, CloseInput).Some? && Running(c, input, sender, Step(c, s, CloseInput).value)
    ensures Step(c, s, CloseInput).value == s.(inClosed := true)
  {
    StepInv(c, s, CloseInput);
    FollowsStep(c, sender, s, CloseInput);
    ExactStep(c, sender, s, CloseInput);
  }

  /** Loads `input` into a fresh dispatcher and closes the channel. */
  method Load(c: Config, input: seq<Notification>, ghost sender: (Notification, nat) -> bool) returns (d: Machine)
    ensures fresh(d) && fresh(d.workers) && d.c == c
    ensures Running(c, input, sender, d.View())
    ensures d.log.drained == [] && d.deadCloses == 0
  {
    d := new Machine(c);
    LoadingStarts(c, sender);
    var i := 0;
    while i < |input|
      invariant 0 <= i <= |input|
      invariant fresh(d) && fresh(d.workers) && d.c == c
      invariant Loading(c, input[..i], sender, d.View())
    {
      LoadingStep(c, input[..i], sender, d.View(), input[i]);
      assert input[..i + 1] == input[..i] + [input[i]];
      d.Offer(input[i]);
      i := i + 1;
    }
    assert input[..i] == input;
    LoadingEnds(c, input, sender, d.View());
    d.CloseInput();
  }

  /**
   Lets worker `w` take its next step, draining a dead letter first when it waits for room. The reader
   has `read` so far, and `letters` afterwards.
   */
  method Advance(d: Machine, w: nat, input: seq<Notification>, sender: (Notification, nat) -> bool,
                 read: seq<Notification>)
    returns (letters: seq<Notification>)
    requires Running(d.c, input, sender, d.View()) && read == d.log.drained
    requires w < d.workers.Length && !d.workers[w].Exited?
    modifies d, d.workers
    ensures Running(d.c, input, sender, d.View()) && letters == d.log.drained
    ensures Measure(d.c, d.View()) < old(Measure(d.c, d.View())) && d.deadCloses == old(d.deadCloses)
  {
    letters := read;
    ghost var s := d.View();
    if d.workers[w].Enqueuing? && |d.queue| == DEAD_CAPACITY {
      RunningStep(d.c, input, sender, s, Drain);
      var n := d.Drain();
      letters := read + [n];
    } else {
      NextIsEnabled(d.c, input, sender, s, w);
      var a := d.Turn(w, sender);
      RunningStep(d.c, input, sender, s, a);
      var _ := d.FireWorker(a);
    }
  }

  /** One step of worker `w`, and the worker whose turn is next. */
  method Round(d: Machine, w: nat, input: seq<Notification>, sender: (Notification, nat) -> bool,
               read: seq<Notification>)
    returns (letters: seq<Notification>, next: nat)
    requires Running(d.c, input, sender, d.View()) && read == d.log.drained
    requires w < d.workers.Length && !d.workers[w].Exited?
    modifies d, d.workers
    ensures Running(d.c, input, sender, d.View()) && letters == d.log.drained
    ensures Measure(d.c, d.View()) < old(Measure(d.c, d.View())) && d.deadCloses == old(d.deadCloses)
    ensures next <= d.workers.Length && (next < d.workers.Length ==> !d.workers[next].Exited?)
    ensures next == d.workers.Length ==> AllExited(d.workers[..])
  {
    letters := Advance(d, w, input, sender, read);
    next := d.FirstActive();
  }

  /** Lets the workers finish one after another. */
  method FinishWorkers(d: Machine, input: seq<Notification>, sender: (Notification, nat) -> bool,
                       read: seq<Notification>)
    returns (letters: seq<Notification>)
    requires Running(d.c, input, sender, d.View()) && read == d.log.drained && d.deadCloses == 0
    modifies d, d.workers
    ensures Running(d.c, input, sender, d.View()) && letters == d.log.drained && d.deadCloses == 0
    ensures AllExited(d.workers[..])
  {
    letters := read;
    var w: nat := d.FirstActive();
    while w < d.workers.Length
      invariant Running(d.c, input, sender, d.View()) && letters == d.log.drained && d.deadCloses == 0
      invariant w <= d.workers.Length && (w < d.workers.Length ==> !d.workers[w].Exited?)
      invariant w == d.workers.Length ==> AllExited(d.workers[..])
      decreases Measure(d.c, d.View())
    {
      letters, w := Round(d, w, input, sender, letters);
    }
  }

  /** Run closes the dead-letter channel and the reader empties it. */
  method CloseAndDrain(d: Machine, input: seq<Notification>, sender: (Notification, nat) -> bool,
                       read: seq<Notification>)
    returns (letters: seq<Notification>)
    requires Running(d.c, input, sender, d.View()) && AllExited(d.workers[..])
    requires read == d.log.drained && d.deadCloses == 0
    modifies d
    ensures Running(d.c, input, sender, d.View()) && AllExited(d.workers[..])
    ensures d.queue == [] && letters == d.log.drained && d.deadCloses == 1
  {
    RunningStep(d.c, input, sender, d.View(), CloseDead);
    d.CloseDead();
    letters := read;
    while d.queue != []
      invariant Running(d.c, input, sender, d.View()) && AllExited(d.workers[..])
      invariant letters == d.log.drained && d.deadCloses == 1
      decreases |d.queue|
    {
      RunningStep(d.c, input, sender, d.View(), Drain);
      var n := d.Drain();
      letters := letters + [n];
    }
  }

  /**
   Runs the dispatcher over a closed input with a reader draining the dead letters, under an
   arbitrary scheduler: `picks` names the worker to move next, and when it runs out the workers
   finish one after another. Every schedule gives the same counters and the same dead letters.
   */
  method Execute(c: Config, input: seq<Notification>, sender: (Notification, nat) -> bool, picks: seq<nat>)
    returns (metrics: Metrics, dead: seq<Notification>)
    ensures c.workers >= 1 ==>
              && metrics.sent == |Sendables(c, sender, input)|
              && metrics.deadLettered == |Unsendables(c, sender, input)|
              && metrics.failed == Total(input, Failures(c, sender))
              && multiset(dead) == multiset(Unsendables(c, sender, input))
    ensures c.workers < 1 ==> metrics == Metrics(0, 0, 0) && dead == []
  {
    var d := Load(c, input, sender);
    dead := [];
    var i := 0;
    while i < |picks|
      invariant fresh(d) && fresh(d.workers) && d.c == c
      invariant Running(c, input, sender, d.View()) && dead == d.log.drained && d.deadCloses == 0
    {
      if picks[i] < d.workers.Length && !d.workers[picks[i]].Exited? {
        dead := Advance(d, picks[i], input, sender, dead);
      }
      i := i + 1;
    }
    dead := FinishWorkers(d, input, sender, dead);
    dead := CloseAndDrain(d, input, sender, dead);
    metrics := Metrics(d.sent, d.failed, d.deadLettered);
    FinishedSplit(c, input, sender, d.View(), dead);
  }

  lemma FinishedSplit(c: Config, input: seq<Notification>, sender: (Notification, nat) -> bool, s: State,
                      dead: seq<Notification>)
    requires Running(c, input, sender, s) && AllExited(s.workers) && s.queue == [] && dead == s.log.drained
    ensures c.workers >= 1 ==> CountersFollow(c, sender, input, s.metrics)
    ensures c.workers >= 1 ==> multiset(dead) == multiset(Unsendables(c, sender, input))
    ensures c.workers < 1 ==> s.metrics == Metrics(0, 0, 0) && dead == []
  {
    assert Carried(s) == dead;
    if c.workers >= 1 {
      assert s.workers[0].Exited?;
      FinishedCounters(c, sender, s);
      forall n
        ensures multiset(dead)[n] == multiset(Unsendables(c, sender, input))[n]
      {
        SplitBySendability(c, sender, s, n);
        UnsendableCopies(c, sender, input, n);
      }
    } else {
      ExitedWorkersHoldNothing(c, s);
    }
  }
}
