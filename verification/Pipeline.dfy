/**
 The bounded worker pool `pipeline.Run`: a feeder, N workers, a closer and a collector that talk
 over two unbuffered channels, a one-slot error channel and a cancellable context.

 A state holds every goroutine's position and every channel's condition; one action is one
 indivisible step of one goroutine (or of the caller's context). A schedule is any sequence of
 actions, so a statement about all schedules is a statement about all interleavings, all `select`
 choices and all outcomes of `work`.
 */
module Pipeline {
  import opened Prelude
  import Genx

  type Error = string

  /** What one call of `work` returned. */
  datatype Outcome<R> = Value(v: R) | Failure(e: Error)

  /** The error in the one-slot channel; the worker and index it came from are history. */
  datatype Report = Report(error: Error, worker: nat, item: nat)

  /** What `Run` returned. */
  datatype Return<R> = Ok(results: seq<R>) | Err(error: Error)

  /** The arguments of one call. `cancellable` says whether the caller's context can ever be done. */
  datatype Config<T, R> = Config(items: seq<T>, workers: int, zero: R, cancellable: bool)

  function Width<T, R>(c: Config<T, R>): (n: nat)
    ensures n >= 1 && n >= c.workers
    ensures n == c.workers || (n == 1 && c.workers < 1)
  {
    if c.workers < 1 then 1 else c.workers
  }

  datatype Worker<R> =
    | Idle                        // blocked on receiving from jobs
    | Working(i: nat)             // inside work(ctx, items[i])
    | Sending(i: nat, v: R)       // in the select between out and ctx.Done()
    | Failing(i: nat, e: Error)   // in the select on the error slot
    | Cancelling                  // filled the error slot, about to call cancel()
    | Exited                      // ran wg.Done()

  /** History: where the index handed to a worker is, or how it ended. */
  datatype Fate<R> = Held(w: nat) | Delivered(v: R) | Failed(e: Error) | Dropped

  datatype State<R> = State(
    next: nat,                       // the feeder's loop index
    feeding: bool,                   // the feeder is still in its loop
    jobsCloses: nat,                 // how often close(jobs) ran
    workers: seq<Worker<R>>,
    slot: Option<Report>,            // errCh, capacity one
    cancelled: bool,                 // ctx.Done() is closed
    parentCancelled: bool,           // the caller cancelled its context
    outCloses: nat,                  // how often close(out) ran
    results: seq<R>,
    ret: Option<Return<R>>,
    fate: seq<Fate<R>>,              // history: one entry per index handed out
    calls: map<nat, Outcome<R>>)     // history: what work returned for each index

  datatype Action<R> =
    | Feed(w: nat)
    | StopFeeding
    | WorkReturns(w: nat, o: Outcome<R>)
    | ReportError(w: nat)
    | Cancel(w: nat)
    | Deliver(w: nat)
    | Drop(w: nat)
    | Leave(w: nat)
    | CloseOut
    | Finish
    | ParentCancel

  function Init<T, R>(c: Config<T, R>): State<R> {
    State(0, true, 0, seq(Width(c), _ => Idle), None, false, false, 0,
          seq(|c.items|, _ => c.zero), None, [], map[])
  }

  predicate AllExited<R>(workers: seq<Worker<R>>) {
    forall w | 0 <= w < |workers| :: workers[w].Exited?
  }

  /** One step, or None when the goroutine named by the action cannot take it. */
  function Step<T, R>(c: Config<T, R>, s: State<R>, a: Action<R>): Option<State<R>> {
    match a
    case Feed(w) =>
      if s.feeding && s.next < |c.items| && w < |s.workers| && s.workers[w].Idle? then
        Some(s.(next := s.next + 1, workers := s.workers[w := Working(s.next)], fate := s.fate + [Held(w)]))
      else None
    case StopFeeding =>
      if s.feeding && (s.next >= |c.items| || s.cancelled) then
        Some(s.(feeding := false, jobsCloses := s.jobsCloses + 1))
      else None
    case WorkReturns(w, o) =>
      if w < |s.workers| && s.workers[w].Working? then
        var i := s.workers[w].i;
        var after := match o case Value(v) => Sending(i, v) case Failure(e) => Failing(i, e);
        Some(s.(workers := s.workers[w := after], calls := s.calls[i := o]))
      else None
    case ReportError(w) =>
      if w < |s.workers| && s.workers[w].Failing? && s.workers[w].i < |s.fate| then
        var e := s.workers[w].e;
        var ended := s.fate[s.workers[w].i := Failed(e)];
        if s.slot.None? then
          Some(s.(slot := Some(Report(e, w, s.workers[w].i)), workers := s.workers[w := Cancelling], fate := ended))
        else
          Some(s.(workers := s.workers[w := Exited], fate := ended))
      else None
    case Cancel(w) =>
      if w < |s.workers| && s.workers[w].Cancelling? then
        Some(s.(cancelled := true, workers := s.workers[w := Exited]))
      else None
    case Deliver(w) =>
      if w < |s.workers| && s.workers[w].Sending? && s.ret.None?
         && s.workers[w].i < |s.results| && s.workers[w].i < |s.fate| then
        var i, v := s.workers[w].i, s.workers[w].v;
        Some(s.(results := s.results[i := v], workers := s.workers[w := Idle], fate := s.fate[i := Delivered(v)]))
      else None
    case Drop(w) =>
      if w < |s.workers| && s.workers[w].Sending? && s.cancelled && s.workers[w].i < |s.fate| then
        Some(s.(workers := s.workers[w := Exited], fate := s.fate[s.workers[w].i := Dropped]))
      else None
    case Leave(w) =>
      if w < |s.workers| && s.workers[w].Idle? && s.jobsCloses > 0 then
        Some(s.(workers := s.workers[w := Exited]))
      else None
    case CloseOut =>
      if s.outCloses == 0 && AllExited(s.workers) then
        Some(s.(outCloses := s.outCloses + 1))
      else None
    case Finish =>
      if s.outCloses > 0 && s.ret.None? then
        var r := match s.slot case Some(r) => Err(r.error) case None => Ok(s.results);
        Some(s.(ret := Some(r), cancelled := true))
      else None
    case ParentCancel =>
      if c.cancellable && !s.parentCancelled then
        Some(s.(parentCancelled := true, cancelled := true))
      else None
  }

  /** Takes the whole schedule, or None when some action of it is not enabled. */
  function Replay<T, R>(c: Config<T, R>, s: State<R>, schedule: seq<Action<R>>): Option<State<R>>
    decreases schedule
  {
    if schedule == [] then Some(s)
    else match Step(c, s, schedule[0])
         case None => None
         case Some(t) => Replay(c, t, schedule[1..])
  }

  ghost predicate Reaches<T, R>(c: Config<T, R>, schedule: seq<Action<R>>, s: State<R>) {
    Replay(c, Init(c), schedule) == Some(s)
  }

  // ----- the invariant -----

  ghost predicate WorkerOk<R>(x: Worker<R>, w: nat, fate: seq<Fate<R>>, calls: map<nat, Outcome<R>>) {
    match x
    case Working(i) => i < |fate| && fate[i] == Held(w) && i !in calls
    case Sending(i, v) => i < |fate| && fate[i] == Held(w) && i in calls && calls[i] == Value(v)
    case Failing(i, e) => i < |fate| && fate[i] == Held(w) && i in calls && calls[i] == Failure(e)
    case _ => true
  }

  predicate Holds<R>(x: Worker<R>, i: nat) {
    (x.Working? || x.Sending? || x.Failing?) && x.i == i
  }

  /** Neither the caller nor a failed call of `work` has asked the pool to stop. */
  predicate Undisturbed<R>(s: State<R>) {
    !s.parentCancelled && s.slot.None?
  }

  ghost predicate FateOk<R>(f: Fate<R>, i: nat, s: State<R>) {
    match f
    case Held(w) => w < |s.workers| && Holds(s.workers[w], i)
    case Delivered(v) => i in s.calls && s.calls[i] == Value(v) && i < |s.results| && s.results[i] == v
    case Failed(e) => i in s.calls && s.calls[i] == Failure(e) && s.slot.Some?
    case Dropped => i in s.calls && s.calls[i].Value? && s.cancelled && !Undisturbed(s)
  }

  ghost predicate Inv<T, R>(c: Config<T, R>, s: State<R>) {
    && |s.workers| == Width(c) && |s.results| == |c.items|
    && |s.fate| == s.next <= |c.items|
    && (forall w | 0 <= w < |s.workers| :: WorkerOk(s.workers[w], w, s.fate, s.calls))
    && (forall i | 0 <= i < |s.fate| :: FateOk(s.fate[i], i, s))
    && (forall i | 0 <= i < |s.results| :: (i < s.next && s.fate[i].Delivered?) || s.results[i] == c.zero)
    && (forall i | i in s.calls :: i < s.next)
    && (s.slot.Some? ==>
          && s.slot.value.worker < |s.workers| && s.slot.value.item < |s.fate|
          && s.fate[s.slot.value.item] == Failed(s.slot.value.error)
          && (s.cancelled || s.workers[s.slot.value.worker].Cancelling?))
    && (forall w | 0 <= w < |s.workers| :: s.workers[w].Cancelling? ==> s.slot.Some? && s.slot.value.worker == w)
    && (s.cancelled ==> !Undisturbed(s) || s.ret.Some?)
    && (s.parentCancelled ==> c.cancellable && s.cancelled)
    && s.jobsCloses == (if s.feeding then 0 else 1)
    && (!s.feeding ==> s.next == |c.items| || !Undisturbed(s))
    && (forall w | 0 <= w < |s.workers| :: s.workers[w].Exited? ==> !s.feeding || !Undisturbed(s))
    && s.outCloses <= 1
    && (s.outCloses == 1 ==> AllExited(s.workers) && (Undisturbed(s) ==> !s.feeding))
    && (s.ret.Some? ==> s.outCloses == 1 && s.cancelled
                        && s.ret == Some(match s.slot case Some(r) => Err(r.error) case None => Ok(s.results)))
  }

  lemma InitInv<T, R>(c: Config<T, R>)
    ensures Inv(c, Init(c))
  {
  }

  lemma StepInv<T, R>(c: Config<T, R>, s: State<R>, a: Action<R>)
    requires Inv(c, s) && Step(c, s, a).Some?
    ensures Inv(c, Step(c, s, a).value)
  {
    match a
    case Feed(w) => FeedInv(c, s, w);
    case WorkReturns(w, o) => WorkReturnsInv(c, s, w, o);
    case ReportError(w) => ReportErrorInv(c, s, w);
    case Deliver(w) => DeliverInv(c, s, w);
    case Drop(w) => DropInv(c, s, w);
    case Cancel(_) => ExitInv(c, s, a);
    case Leave(_) => ExitInv(c, s, a);
    case StopFeeding => ChannelInv(c, s, a);
    case CloseOut => ChannelInv(c, s, a);
    case _ => ContextInv(c, s, a);
  }

  lemma ExitInv<T, R>(c: Config<T, R>, s: State<R>, a: Action<R>)
    requires a.Cancel? || a.Leave?
    requires Inv(c, s) && Step(c, s, a).Some?
    ensures Inv(c, Step(c, s, a).value)
  {
  }

  lemma ChannelInv<T, R>(c: Config<T, R>, s: State<R>, a: Action<R>)
    requires a.StopFeeding? || a.CloseOut?
    requires Inv(c, s) && Step(c, s, a).Some?
    ensures Inv(c, Step(c, s, a).value)
  {
    assert a.CloseOut? ==> s.workers[0].Exited?;
  }

  lemma ContextInv<T, R>(c: Config<T, R>, s: State<R>, a: Action<R>)
    requires a.Finish? || a.ParentCancel?
    requires Inv(c, s) && Step(c, s, a).Some?
    ensures Inv(c, Step(c, s, a).value)
  {
  }

  lemma FeedInv<T, R>(c: Config<T, R>, s: State<R>, w: nat)
    requires Inv(c, s) && Step(c, s, Feed(w)).Some?
    ensures Inv(c, Step(c, s, Feed(w)).value)
  {
  }

  lemma WorkReturnsInv<T, R>(c: Config<T, R>, s: State<R>, w: nat, o: Outcome<R>)
    requires Inv(c, s) && Step(c, s, WorkReturns(w, o)).Some?
    ensures Inv(c, Step(c, s, WorkReturns(w, o)).value)
  {
    assert WorkerOk(s.workers[w], w, s.fate, s.calls);
  }

  lemma ReportErrorFates<T, R>(c: Config<T, R>, s: State<R>, w: nat)
    requires Inv(c, s) && Step(c, s, ReportError(w)).Some?
    ensures var t := Step(c, s, ReportError(w)).value;
            && |t.fate| == |s.fate| && |t.workers| == |s.workers|
            && (forall i | 0 <= i < |t.fate| :: FateOk(t.fate[i], i, t))
            && (forall x | 0 <= x < |t.workers| :: WorkerOk(t.workers[x], x, t.fate, t.calls))
  {
    assert WorkerOk(s.workers[w], w, s.fate, s.calls);
  }

  lemma ReportErrorInv<T, R>(c: Config<T, R>, s: State<R>, w: nat)
    requires Inv(c, s) && Step(c, s, ReportError(w)).Some?
    ensures Inv(c, Step(c, s, ReportError(w)).value)
  {
    ReportErrorFates(c, s, w);
  }

  lemma DeliverInv<T, R>(c: Config<T, R>, s: State<R>, w: nat)
    requires Inv(c, s) && Step(c, s, Deliver(w)).Some?
    ensures Inv(c, Step(c, s, Deliver(w)).value)
  {
  }

  lemma DropInv<T, R>(c: Config<T, R>, s: State<R>, w: nat)
    requires Inv(c, s) && Step(c, s, Drop(w)).Some?
    ensures Inv(c, Step(c, s, Drop(w)).value)
  {
  }

  lemma {:induction false} ReplayInv<T, R>(c: Config<T, R>, s: State<R>, schedule: seq<Action<R>>)
    requires Inv(c, s) && Replay(c, s, schedule).Some?
    ensures Inv(c, Replay(c, s, schedule).value)
    decreases schedule
  {
    if schedule != [] {
      StepInv(c, s, schedule[0]);
      ReplayInv(c, Step(c, s, schedule[0]).value, schedule[1..]);
    }
  }

  lemma ReachableInv<T, R>(c: Config<T, R>, schedule: seq<Action<R>>, s: State<R>)
    requires Reaches(c, schedule, s)
    ensures Inv(c, s)
  {
    InitInv(c);
    ReplayInv(c, Init(c), schedule);
  }

  // ----- what Run returns -----

  /** Every slot holds the value `work` returned for that item. */
  ghost predicate Complete<T, R>(c: Config<T, R>, s: State<R>, results: seq<R>) {
    && |results| == |c.items|
    && forall i | 0 <= i < |c.items| :: i in s.calls && s.calls[i] == Value(results[i])
  }

  /** A nil error from an uncancelled call comes with a complete slice, in item order. */
  lemma NilErrorIsComplete<T, R>(c: Config<T, R>, schedule: seq<Action<R>>, s: State<R>)
    requires Reaches(c, schedule, s)
    requires s.ret.Some? && s.ret.value.Ok? && !s.parentCancelled
    ensures Complete(c, s, s.ret.value.results)
  {
    ReachableInv(c, schedule, s);
    forall i | 0 <= i < |c.items|
      ensures i in s.calls && s.calls[i] == Value(s.results[i])
    {
      assert FateOk(s.fate[i], i, s);
    }
  }

  ghost predicate AlwaysComplete<T, R(!new)>(c: Config<T, R>) {
    forall schedule, s | Reaches(c, schedule, s) && s.ret.Some? && s.ret.value.Ok? ::
      Complete(c, s, s.ret.value.results)
  }

  /** The remaining workers `from..n` see the closed jobs channel and leave. */
  function LeaveAll<R>(from: nat, n: nat): seq<Action<R>>
    decreases n - from
  {
    if from >= n then [] else [Leave(from)] + LeaveAll(from + 1, n)
  }

  lemma {:induction false} LeaveAllEmptiesPool<T, R>(c: Config<T, R>, s: State<R>, from: nat, rest: seq<Action<R>>)
    requires from <= |s.workers| && s.jobsCloses > 0
    requires forall w | 0 <= w < |s.workers| :: s.workers[w] == if w < from then Exited else Idle
    ensures Replay(c, s, LeaveAll(from, |s.workers|) + rest)
         == Replay(c, s.(workers := seq(|s.workers|, _ => Exited)), rest)
    decreases |s.workers| - from
  {
    if from == |s.workers| {
      assert s.workers == seq(|s.workers|, _ => Exited);
      assert LeaveAll(from, |s.workers|) + rest == rest;
    } else {
      var t := s.(workers := s.workers[from := Exited]);
      var tail := LeaveAll<R>(from + 1, |s.workers|) + rest;
      assert LeaveAll(from, |s.workers|) + rest == [Leave(from)] + tail;
      assert ([Leave(from)] + tail)[1..] == tail;
      LeaveAllEmptiesPool(c, t, from + 1, rest);
    }
  }

  /** A context cancelled before the feeder starts: Run returns untouched slots and a nil error. */
  lemma CancelledCallReturnsZeros<T, R>(c: Config<T, R>) returns (schedule: seq<Action<R>>, s: State<R>)
    requires c.cancellable
    ensures Reaches(c, schedule, s)
    ensures s.ret == Some(Ok(seq(|c.items|, _ => c.zero))) && s.calls == map[]
  {
    var leaves := LeaveAll<R>(0, Width(c)) + [CloseOut, Finish];
    schedule := [ParentCancel, StopFeeding] + leaves;
    var s1 := Step(c, Init(c), ParentCancel).value;
    var s2 := Step(c, s1, StopFeeding).value;
    LeaveAllEmptiesPool(c, s2, 0, [CloseOut, Finish]);
    var s3 := s2.(workers := seq(Width(c), _ => Exited));
    var s4 := Step(c, s3, CloseOut).value;
    s := Step(c, s4, Finish).value;
    assert [Action<R>.CloseOut, Finish][1..] == [Finish];
    assert schedule[1..] == [StopFeeding] + leaves;
    assert schedule[1..][1..] == leaves;
    assert Replay(c, s3, [CloseOut, Finish]) == Replay(c, s4, [Finish]) == Replay(c, s, []);
    assert Replay(c, Init(c), schedule) == Replay(c, s1, schedule[1..]) == Replay(c, s2, leaves);
  }

  /**
   A nil error comes with a complete slice in every run exactly when the caller's context can never be
   cancelled, or there is nothing to do.
   */
  lemma CompletenessCondition<T, R(!new)>(c: Config<T, R>)
    ensures AlwaysComplete(c) <==> !c.cancellable || c.items == []
  {
    if !c.cancellable || c.items == [] {
      forall schedule, s | Reaches(c, schedule, s) && s.ret.Some? && s.ret.value.Ok?
        ensures Complete(c, s, s.ret.value.results)
      {
        ReachableInv(c, schedule, s);
        if !c.cancellable {
          NilErrorIsComplete(c, schedule, s);
        }
      }
    } else {
      var schedule, s := CancelledCallReturnsZeros(c);
      assert 0 !in s.calls;
      assert Reaches(c, schedule, s) && !Complete(c, s, s.ret.value.results);
    }
  }

  /** When every call of `work` returned `f(item)`, an uncancelled Run is the sequential Map. */
  lemma PureRunIsMap<T, R>(c: Config<T, R>, schedule: seq<Action<R>>, s: State<R>, f: T -> R)
    requires Reaches(c, schedule, s) && s.ret.Some? && !s.parentCancelled
    requires forall i | i in s.calls :: i < |c.items| && s.calls[i] == Value(f(c.items[i]))
    ensures s.ret == Some(Ok(Genx.Mapped(c.items, f)))
  {
    ReachableInv(c, schedule, s);
    assert s.slot.None?;
    NilErrorIsComplete(c, schedule, s);
    assert s.ret.value.results == Genx.Mapped(c.items, f);
  }

  /** Run returns an error exactly when some executed call of `work` failed, and it is one of theirs. */
  lemma ErrorIffWorkFailed<T, R>(c: Config<T, R>, schedule: seq<Action<R>>, s: State<R>)
    requires Reaches(c, schedule, s) && s.ret.Some?
    ensures s.ret.value.Err? <==> exists i :: i in s.calls && s.calls[i].Failure?
    ensures s.ret.value.Err? ==> exists i :: i in s.calls && s.calls[i] == Failure(s.ret.value.error)
  {
    ReachableInv(c, schedule, s);
    if s.slot.Some? {
      var i := s.slot.value.item;
      assert FateOk(s.fate[i], i, s);
      assert s.calls[i] == Failure(s.ret.value.error);
    }
    forall i | i in s.calls && s.calls[i].Failure?
      ensures s.slot.Some?
    {
      assert FateOk(s.fate[i], i, s);
    }
  }

  lemma SlotStays<T, R>(c: Config<T, R>, s: State<R>, a: Action<R>)
    requires s.slot.Some? && Step(c, s, a).Some?
    ensures Step(c, s, a).value.slot == s.slot
  {
  }

  /** The first error reported is never replaced, and it is the one Run returns. */
  lemma {:induction false} FirstErrorWins<T, R>(c: Config<T, R>, s: State<R>, later: seq<Action<R>>, t: State<R>)
    requires Inv(c, s) && s.slot.Some? && Replay(c, s, later) == Some(t)
    ensures t.slot == s.slot
    ensures t.ret.Some? ==> t.ret == Some(Err(s.slot.value.error))
    decreases later
  {
    if later != [] {
      SlotStays(c, s, later[0]);
      StepInv(c, s, later[0]);
      FirstErrorWins(c, Step(c, s, later[0]).value, later[1..], t);
    }
  }

  // ----- conservation -----

  /**
   The indices handed out are a prefix of the items, and each has one fate: held by exactly one
   worker, delivered into its own slot, failed, or dropped because the pool was told to stop.
   */
  lemma WorkIsConserved<T, R>(c: Config<T, R>, schedule: seq<Action<R>>, s: State<R>)
    requires Reaches(c, schedule, s)
    ensures |s.fate| == s.next <= |c.items| == |s.results|
    ensures forall w: nat, i: nat {:trigger Holds(s.workers[w], i)} | w < |s.workers| && Holds(s.workers[w], i) ::
              0 <= i < s.next && s.fate[i] == Held(w)
    ensures forall i | 0 <= i < s.next && s.fate[i].Held? ::
              s.fate[i].w < |s.workers| && Holds(s.workers[s.fate[i].w], i)
    ensures forall i | 0 <= i < s.next && s.fate[i].Dropped? :: s.cancelled && !Undisturbed(s)
    ensures forall i | 0 <= i < |c.items| ::
              if i < s.next && s.fate[i].Delivered? then s.results[i] == s.fate[i].v else s.results[i] == c.zero
  {
    ReachableInv(c, schedule, s);
    forall w: nat, i: nat | w < |s.workers| && Holds(s.workers[w], i)
      ensures 0 <= i < s.next && s.fate[i] == Held(w)
    {
      assert WorkerOk(s.workers[w], w, s.fate, s.calls);
    }
    forall i | 0 <= i < s.next
      ensures FateOk(s.fate[i], i, s)
    {
    }
  }

  lemma FateIsFinalStep<T, R>(c: Config<T, R>, s: State<R>, a: Action<R>, i: nat)
    requires Inv(c, s) && Step(c, s, a).Some?
    requires i < |s.fate| && !s.fate[i].Held?
    ensures var t := Step(c, s, a).value;
            && i < |t.fate| && t.fate[i] == s.fate[i]
            && |t.results| == |s.results| && t.results[i] == s.results[i]
            && i in s.calls && i in t.calls && t.calls[i] == s.calls[i]
  {
  }

  /** Once an index has ended, its fate, its slot and the outcome of its only call never change. */
  lemma {:induction false} FateIsFinal<T, R>(c: Config<T, R>, s: State<R>, later: seq<Action<R>>, t: State<R>, i: nat)
    requires Inv(c, s) && Replay(c, s, later) == Some(t)
    requires i < |s.fate| && !s.fate[i].Held?
    ensures i < |t.fate| && t.fate[i] == s.fate[i]
    ensures |t.results| == |s.results| && t.results[i] == s.results[i]
    ensures i in s.calls && i in t.calls && t.calls[i] == s.calls[i]
    decreases later
  {
    if later == [] {
      assert FateOk(s.fate[i], i, s);
    } else {
      FateIsFinalStep(c, s, later[0], i);
      StepInv(c, s, later[0]);
      FateIsFinal(c, Step(c, s, later[0]).value, later[1..], t, i);
    }
  }

  // ----- a failure costs a worker -----

  /** The index ended without a result. */
  function Lost<R>(f: Fate<R>): nat {
    if f.Failed? || f.Dropped? then 1 else 0
  }

  /** The worker will not receive another index. */
  function Gone<R>(x: Worker<R>): nat {
    if x.Cancelling? || x.Exited? then 1 else 0
  }

  /** One step of worker `w`: what it does to the fates costs it as much. */
  lemma FateStep<T, R>(c: Config<T, R>, s: State<R>, a: Action<R>, w: nat)
    requires Inv(c, s) && Step(c, s, a).Some? && Actor(a) == Some(w)
    ensures var t := Step(c, s, a).value;
            && w < |s.workers| == |t.workers|
            && Total(t.fate, Lost) - Total(s.fate, Lost) <= Gone(t.workers[w]) - Gone(s.workers[w])
  {
    var t := Step(c, s, a).value;
    assert WorkerOk(s.workers[w], w, s.fate, s.calls);
    if a.Feed? {
      TotalAppend(s.fate, Held(w), Lost);
    } else if a.ReportError? || a.Deliver? || a.Drop? {
      TotalUpdate(s.fate, s.workers[w].i, t.fate[s.workers[w].i], Lost);
    }
  }

  lemma LossStep<T, R>(c: Config<T, R>, s: State<R>, a: Action<R>)
    requires Inv(c, s) && Step(c, s, a).Some? && Total(s.fate, Lost) <= Total(s.workers, Gone)
    ensures var t := Step(c, s, a).value;
            Total(t.fate, Lost) <= Total(t.workers, Gone)
  {
    if Actor(a).Some? {
      var w, t := Actor(a).value, Step(c, s, a).value;
      ActorGetsLighter(c, s, a);
      FateStep(c, s, a, w);
      TotalUpdate(s.workers, w, t.workers[w], Gone);
    }
  }

  lemma {:induction false} LossReplay<T, R>(c: Config<T, R>, s: State<R>, schedule: seq<Action<R>>, t: State<R>)
    requires Inv(c, s) && Total(s.fate, Lost) <= Total(s.workers, Gone) && Replay(c, s, schedule) == Some(t)
    ensures Total(t.fate, Lost) <= Total(t.workers, Gone)
    decreases schedule
  {
    if schedule != [] {
      LossStep(c, s, schedule[0]);
      StepInv(c, s, schedule[0]);
      LossReplay(c, Step(c, s, schedule[0]).value, schedule[1..], t);
    }
  }

  /**
   A worker that reports an error or drops a result takes no further item: the lost indices never
   outnumber the workers that are gone, so a run loses at most one index a worker.
   */
  lemma EachLossCostsAWorker<T, R>(c: Config<T, R>, schedule: seq<Action<R>>, s: State<R>)
    requires Reaches(c, schedule, s)
    ensures Total(s.fate, Lost) <= Total(s.workers, Gone) <= Width(c)
  {
    InitInv(c);
    LossReplay(c, Init(c), schedule, s);
    ReachableInv(c, schedule, s);
    TotalAtMost(s.workers, Gone, 1);
  }

  // ----- channels, progress and termination -----

  /** Every goroutine has ended and Run has returned. */
  predicate Done<R>(s: State<R>) {
    s.ret.Some? && !s.feeding && AllExited(s.workers)
  }

  /** No goroutine of the pool can take a step; only the caller's context could still change. */
  ghost predicate Stuck<T, R(!new)>(c: Config<T, R>, s: State<R>) {
    forall a: Action<R> :: Step(c, s, a).Some? ==> a.ParentCancel?
  }

  /** An unfinished pool can move; a worker inside `work` moves with whatever outcome `work` has. */
  lemma UnfinishedCanStep<T, R>(c: Config<T, R>, s: State<R>, o: Outcome<R>) returns (a: Action<R>)
    requires Inv(c, s) && !Done(s)
    ensures !a.ParentCancel? && Step(c, s, a).Some?
    ensures a.WorkReturns? ==> a.o == o
  {
    if w :| 0 <= w < |s.workers| && !s.workers[w].Exited? {
      assert WorkerOk(s.workers[w], w, s.fate, s.calls);
      match s.workers[w]
      case Idle => a := if !s.feeding then Leave(w) else if s.next < |c.items| then Feed(w) else StopFeeding;
      case Working(_) => a := WorkReturns(w, o);
      case Sending(_, _) => a := Deliver(w);
      case Failing(_, _) => a := ReportError(w);
      case Cancelling => a := Cancel(w);
    } else {
      a := if s.outCloses == 0 then CloseOut else if s.ret.None? then Finish else StopFeeding;
    }
  }

  /** Every ready arm of a select can be taken: what each goroutine may do next, by what it waits for. */
  lemma ReadyArms<T, R>(c: Config<T, R>, s: State<R>, w: nat, o: Outcome<R>)
    requires Inv(c, s) && w < |s.workers|
    ensures Step(c, s, Feed(w)).Some? <==> s.feeding && s.next < |c.items| && s.workers[w].Idle?
    ensures Step(c, s, StopFeeding).Some? <==> s.feeding && (s.next == |c.items| || s.cancelled)
    ensures Step(c, s, WorkReturns(w, o)).Some? <==> s.workers[w].Working?
    ensures Step(c, s, ReportError(w)).Some? <==> s.workers[w].Failing?
    ensures Step(c, s, Deliver(w)).Some? <==> s.workers[w].Sending? && s.ret.None?
    ensures Step(c, s, Drop(w)).Some? <==> s.workers[w].Sending? && s.cancelled
    ensures Step(c, s, Leave(w)).Some? <==> s.workers[w].Idle? && !s.feeding
    ensures Step(c, s, Cancel(w)).Some? <==> s.workers[w].Cancelling?
    ensures Step(c, s, ParentCancel).Some? <==> c.cancellable && !s.parentCancelled
  {
    assert WorkerOk(s.workers[w], w, s.fate, s.calls);
  }

  function Weight<R>(x: Worker<R>): nat {
    match x
    case Idle => 1
    case Working(_) => 3
    case Sending(_, _) => 2
    case Failing(_, _) => 2
    case Cancelling => 1
    case Exited => 0
  }

  function Measure<T, R>(c: Config<T, R>, s: State<R>): int {
    3 * (|c.items| - s.next) + Total(s.workers, Weight)
    + (if s.feeding then 1 else 0) + (if s.outCloses == 0 then 1 else 0)
    + (if s.ret.None? then 1 else 0) + (if s.parentCancelled then 0 else 1)
  }

  /** The worker an action moves, if it moves one. */
  function Actor<R>(a: Action<R>): Option<nat> {
    match a
    case Feed(w) => Some(w)
    case WorkReturns(w, _) => Some(w)
    case ReportError(w) => Some(w)
    case Cancel(w) => Some(w)
    case Deliver(w) => Some(w)
    case Drop(w) => Some(w)
    case Leave(w) => Some(w)
    case _ => None
  }

  lemma ActorGetsLighter<T, R>(c: Config<T, R>, s: State<R>, a: Action<R>)
    requires Step(c, s, a).Some? && Actor(a).Some?
    ensures var w, t := Actor(a).value, Step(c, s, a).value;
            && w < |s.workers| == |t.workers| && t.workers == s.workers[w := t.workers[w]]
            && Weight(t.workers[w]) < Weight(s.workers[w]) + 3 * (t.next - s.next)
            && (t.feeding, t.outCloses, t.ret, t.parentCancelled) == (s.feeding, s.outCloses, s.ret, s.parentCancelled)
  {
  }

  lemma StepLowersMeasure<T, R>(c: Config<T, R>, s: State<R>, a: Action<R>)
    requires Step(c, s, a).Some?
    ensures Measure(c, Step(c, s, a).value) < Measure(c, s)
  {
    if Actor(a).Some? {
      var w, t := Actor(a).value, Step(c, s, a).value;
      ActorGetsLighter(c, s, a);
      TotalUpdate(s.workers, w, t.workers[w], Weight);
    }
  }

  lemma {:induction false} ReplayBounded<T, R>(c: Config<T, R>, s: State<R>, schedule: seq<Action<R>>)
    requires Inv(c, s) && Replay(c, s, schedule).Some?
    ensures |schedule| <= Measure(c, s)
    decreases schedule
  {
    if schedule == [] {
      assert Measure(c, s) >= 0;
    } else {
      StepLowersMeasure(c, s, schedule[0]);
      StepInv(c, s, schedule[0]);
      ReplayBounded(c, Step(c, s, schedule[0]).value, schedule[1..]);
    }
  }

  /** No schedule takes more than 3 steps an item, one a worker and four more. */
  lemma EveryRunIsFinite<T, R>(c: Config<T, R>, schedule: seq<Action<R>>, s: State<R>)
    requires Reaches(c, schedule, s)
    ensures |schedule| <= 3 * |c.items| + Width(c) + 4
  {
    InitInv(c);
    ReplayBounded(c, Init(c), schedule);
    TotalUniform(Init(c).workers, Weight, 1);
  }

  /**
   Deadlock freedom: the pool stops exactly when Run has returned and every goroutine has ended,
   and then each channel was closed once.
   */
  lemma StuckIffDone<T, R(!new)>(c: Config<T, R>, schedule: seq<Action<R>>, s: State<R>)
    requires Reaches(c, schedule, s)
    ensures Stuck(c, s) <==> Done(s)
    ensures Done(s) ==> s.jobsCloses == 1 && s.outCloses == 1
  {
    ReachableInv(c, schedule, s);
    if !Done(s) {
      var a := UnfinishedCanStep(c, s, Value(c.zero));
      assert !Stuck(c, s);
    }
  }

  /** Once Run has returned every worker is gone, and a feeder still in its loop can leave it. */
  lemma NoGoroutineLeaks<T, R>(c: Config<T, R>, schedule: seq<Action<R>>, s: State<R>)
    requires Reaches(c, schedule, s) && s.ret.Some?
    ensures AllExited(s.workers) && s.outCloses == 1
    ensures s.feeding ==> Step(c, s, StopFeeding).Some? && Done(Step(c, s, StopFeeding).value)
  {
    ReachableInv(c, schedule, s);
  }

  /** No channel is closed twice, and nobody sends on a closed one. */
  lemma ChannelsCloseOnce<T, R>(c: Config<T, R>, schedule: seq<Action<R>>, s: State<R>)
    requires Reaches(c, schedule, s)
    ensures s.jobsCloses <= 1 && s.outCloses <= 1
    ensures s.jobsCloses == 1 ==> !s.feeding
    ensures s.outCloses == 1 ==> forall w | 0 <= w < |s.workers| :: s.workers[w].Exited?
  {
    ReachableInv(c, schedule, s);
  }
}
