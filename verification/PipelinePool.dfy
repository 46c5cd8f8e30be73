/** `pipeline.Run` as mutable state: the goroutines' positions and the results slice are updated in place. */
module PipelinePool {
  import opened Prelude
  import opened Pipeline

  class Pool<T, R> {
    const c: Config<T, R>
    var next: nat
    var feeding: bool
    var jobsCloses: nat
    const workers: array<Worker<R>>
    var slot: Option<Report>
    var cancelled: bool
    var parentCancelled: bool
    var outCloses: nat
    const results: array<R>
    var ret: Option<Return<R>>
    ghost var fate: seq<Fate<R>>
    ghost var calls: map<nat, Outcome<R>>

    ghost predicate Valid()
      reads this, workers, results
    {
      workers as object != results && Inv(c, View())
    }

    ghost function View(): State<R>
      reads this, workers, results
    {
      State(next, feeding, jobsCloses, workers[..], slot, cancelled, parentCancelled, outCloses,
            results[..], ret, fate, calls)
    }

    constructor (c: Config<T, R>)
      ensures Valid() && fresh(workers) && fresh(results)
      ensures this.c == c && View() == Init(c)
    {
      this.c := c;
      next, feeding, jobsCloses, slot, cancelled := 0, true, 0, None, false;
      parentCancelled, outCloses, ret, fate, calls := false, 0, None, [], map[];
      var ws := new Worker<R>[Width(c)](_ => Idle);
      workers := ws;
      results := new R[|c.items|](_ => c.zero);
      new;
      assert workers[..] == Init(c).workers && results[..] == Init(c).results;
      InitInv(c);
    }

    /** The feeder hands its next index to worker `w`. */
    method Feed(w: nat)
      requires Valid() && Step(c, View(), Action.Feed(w)).Some?
      modifies this, workers
      ensures View() == Step(c, old(View()), Action.Feed(w)).value
    {
      workers[w] := Working(next);
      fate := fate + [Held(w)];
      next := next + 1;
    }

    /** The feeder's loop ends and its deferred close(jobs) runs. */
    method StopFeeding()
      requires Valid() && Step(c, View(), Action.StopFeeding).Some?
      modifies this
      ensures View() == Step(c, old(View()), Action.StopFeeding).value
    {
      feeding := false;
      jobsCloses := jobsCloses + 1;
    }

    /** `work` returns to worker `w`. */
    method WorkReturns(w: nat, o: Outcome<R>)
      requires Valid() && Step(c, View(), Action.WorkReturns(w, o)).Some?
      modifies this, workers
      ensures View() == Step(c, old(View()), Action.WorkReturns(w, o)).value
    {
      var i := workers[w].i;
      workers[w] := match o case Value(v) => Sending(i, v) case Failure(e) => Failing(i, e);
      calls := calls[i := o];
    }

    /** Worker `w` tries the error slot; when it is full the error is dropped. */
    method ReportError(w: nat)
      requires Valid() && Step(c, View(), Action.ReportError(w)).Some?
      modifies this, workers
      ensures View() == Step(c, old(View()), Action.ReportError(w)).value
    {
      var i, e := workers[w].i, workers[w].e;
      fate := fate[i := Failed(e)];
      if slot.None? {
        slot := Some(Report(e, w, i));
        workers[w] := Cancelling;
      } else {
        workers[w] := Exited;
      }
    }

    method Cancel(w: nat)
      requires Valid() && Step(c, View(), Action.Cancel(w)).Some?
      modifies this, workers
      ensures View() == Step(c, old(View()), Action.Cancel(w)).value
    {
      cancelled := true;
      workers[w] := Exited;
    }

    /** Worker `w` hands its result to the collector, which stores it in the item's slot. */
    method Deliver(w: nat)
      requires Valid() && Step(c, View(), Action.Deliver(w)).Some?
      modifies this, workers, results
      ensures View() == Step(c, old(View()), Action.Deliver(w)).value
    {
      var i, v := workers[w].i, workers[w].v;
      results[i] := v;
      workers[w] := Idle;
      fate := fate[i := Delivered(v)];
    }

    method Drop(w: nat)
      requires Valid() && Step(c, View(), Action.Drop(w)).Some?
      modifies this, workers
      ensures View() == Step(c, old(View()), Action.Drop(w)).value
    {
      fate := fate[workers[w].i := Dropped];
      workers[w] := Exited;
    }

    method Leave(w: nat)
      requires Valid() && Step(c, View(), Action.Leave(w)).Some?
      modifies this, workers
      ensures View() == Step(c, old(View()), Action.Leave(w)).value
    {
      workers[w] := Exited;
    }

    /** The closer's wg.Wait() returned. */
    method CloseOut()
      requires Valid() && Step(c, View(), Action.CloseOut).Some?
      modifies this
      ensures View() == Step(c, old(View()), Action.CloseOut).value
    {
      outCloses := outCloses + 1;
    }

    /** The collector's range loop ended: look into the error slot and return. */
    method Finish()
      requires Valid() && Step(c, View(), Action.Finish).Some?
      modifies this
      ensures View() == Step(c, old(View()), Action.Finish).value
    {
      match slot {
        case Some(r) => ret := Some(Err(r.error));
        case None => ret := Some(Ok(results[..]));
      }
      cancelled := true;
    }

    method ParentCancel()
      requires Valid() && Step(c, View(), Action.ParentCancel).Some?
      modifies this
      ensures View() == Step(c, old(View()), Action.ParentCancel).value
    {
      parentCancelled := true;
      cancelled := true;
    }

    /** wg.Wait() looks for a worker that has not exited. */
    method FirstActive() returns (w: nat)
      ensures w <= workers.Length
      ensures w < workers.Length ==> !workers[w].Exited?
      ensures w == workers.Length <==> AllExited(workers[..])
    {
      w := 0;
      while w < workers.Length && workers[w].Exited?
        invariant w <= workers.Length
        invariant forall k | 0 <= k < w :: workers[k].Exited?
      {
        w := w + 1;
      }
      assert w < workers.Length ==> !workers[..][w].Exited?;
    }

    /** Whether the goroutine the action names can take it. */
    method CanTake(a: Action<R>) returns (ok: bool)
      requires Valid()
      ensures ok == Step(c, View(), a).Some?
    {
      var active := FirstActive();
      ok := match a
        case Feed(w) => feeding && next < |c.items| && w < workers.Length && workers[w].Idle?
        case StopFeeding => feeding && (next >= |c.items| || cancelled)
        case WorkReturns(w, _) => w < workers.Length && workers[w].Working?
        case ReportError(w) => w < workers.Length && workers[w].Failing?
        case Cancel(w) => w < workers.Length && workers[w].Cancelling?
        case Deliver(w) => w < workers.Length && workers[w].Sending? && ret.None?
        case Drop(w) => w < workers.Length && workers[w].Sending? && cancelled
        case Leave(w) => w < workers.Length && workers[w].Idle? && jobsCloses > 0
        case CloseOut => outCloses == 0 && active == workers.Length
        case Finish => outCloses > 0 && ret.None?
        case ParentCancel => c.cancellable && !parentCancelled;
      if Actor(a).Some? && Actor(a).value < workers.Length {
        assert WorkerOk(View().workers[Actor(a).value], Actor(a).value, fate, calls);
      }
    }

    /** Takes the step when the goroutine it names can take it; otherwise nothing changes. */
    method Fire(a: Action<R>) returns (ok: bool)
      requires Valid()
      modifies this, workers, results
      ensures Valid() && ok == Step(c, old(View()), a).Some?
      ensures View() == if ok then Step(c, old(View()), a).value else old(View())
    {
      ok := CanTake(a);
      if ok {
        StepInv(c, View(), a);
        match a {
          case Feed(w) => Feed(w);
          case StopFeeding => StopFeeding();
          case WorkReturns(w, o) => WorkReturns(w, o);
          case ReportError(w) => ReportError(w);
          case Cancel(w) => Cancel(w);
          case Deliver(w) => Deliver(w);
          case Drop(w) => Drop(w);
          case Leave(w) => Leave(w);
          case CloseOut => CloseOut();
          case Finish => Finish();
          case ParentCancel => ParentCancel();
        }
      }
    }
  }

  /** Everything `work` returned so far agrees with the function `work`. */
  ghost predicate CallsAgree<T, R>(c: Config<T, R>, s: State<R>, work: T -> Outcome<R>) {
    forall i | i in s.calls :: i < |c.items| && s.calls[i] == work(c.items[i])
  }

  lemma CallsStayAgreed<T, R>(c: Config<T, R>, s: State<R>, a: Action<R>, work: T -> Outcome<R>)
    requires Inv(c, s) && Step(c, s, a).Some? && CallsAgree(c, s, work)
    requires a.WorkReturns? ==> s.workers[a.w].i < |c.items| && a.o == work(c.items[s.workers[a.w].i])
    ensures CallsAgree(c, Step(c, s, a).value, work)
  {
  }

  /** What `work` gives for the item a worker is busy with, in place of the outcome a pick guessed. */
  function Answered<T, R>(c: Config<T, R>, s: State<R>, a: Action<R>, work: T -> Outcome<R>): Action<R> {
    if a.WorkReturns? && a.w < |s.workers| && s.workers[a.w].Working? && s.workers[a.w].i < |c.items| then
      WorkReturns(a.w, work(c.items[s.workers[a.w].i]))
    else a
  }

  /** A state of a run in which every call of `work` so far answered as the function says. */
  ghost predicate Running<T, R>(c: Config<T, R>, s: State<R>, work: T -> Outcome<R>) {
    Inv(c, s) && CallsAgree(c, s, work)
  }

  lemma RunningStep<T, R>(c: Config<T, R>, s: State<R>, a: Action<R>, work: T -> Outcome<R>)
    requires Running(c, s, work) && Step(c, s, Answered(c, s, a, work)).Some?
    ensures Running(c, Step(c, s, Answered(c, s, a, work)).value, work)
    ensures 0 <= Measure(c, Step(c, s, Answered(c, s, a, work)).value) < Measure(c, s)
  {
    var b := Answered(c, s, a, work);
    if b.WorkReturns? {
      assert WorkerOk(s.workers[b.w], b.w, s.fate, s.calls);
    }
    StepInv(c, s, b);
    StepLowersMeasure(c, s, b);
    CallsStayAgreed(c, s, b, work);
  }

  /** The next step of an unfinished pool: a worker's when one is left, or the closer's, caller's or feeder's. */
  function Next<T, R>(c: Config<T, R>, s: State<R>, w: nat, o: Outcome<R>): Action<R> {
    if w < |s.workers| then
      match s.workers[w]
      case Idle => if !s.feeding then Leave(w) else if s.next < |c.items| then Feed(w) else StopFeeding
      case Working(_) => WorkReturns(w, o)
      case Sending(_, _) => Deliver(w)
      case Failing(_, _) => ReportError(w)
      case _ => Cancel(w)
    else if s.outCloses == 0 then CloseOut
    else if s.ret.None? then Finish
    else StopFeeding
  }

  lemma NextIsEnabled<T, R>(c: Config<T, R>, s: State<R>, w: nat, o: Outcome<R>, work: T -> Outcome<R>)
    requires Inv(c, s) && !Done(s)
    requires if w < |s.workers| then !s.workers[w].Exited? else AllExited(s.workers)
    ensures Step(c, s, Answered(c, s, Next(c, s, w, o), work)).Some?
  {
    if w < |s.workers| {
      assert WorkerOk(s.workers[w], w, s.fate, s.calls);
    }
  }

  /** The state after trying one pick, and after trying all of them in order. */
  function Tried<T, R>(c: Config<T, R>, s: State<R>, a: Action<R>, work: T -> Outcome<R>): State<R> {
    var t := Step(c, s, Answered(c, s, a, work));
    if t.Some? then t.value else s
  }

  function Picked<T, R>(c: Config<T, R>, s: State<R>, picks: seq<Action<R>>, work: T -> Outcome<R>): State<R>
    decreases picks
  {
    if picks == [] then s else Picked(c, Tried(c, s, picks[0], work), picks[1..], work)
  }

  lemma {:induction false} ReplaySnoc<T, R>(c: Config<T, R>, s: State<R>, schedule: seq<Action<R>>, a: Action<R>)
    requires Replay(c, s, schedule).Some?
    ensures Replay(c, s, schedule + [a]) == Step(c, Replay(c, s, schedule).value, a)
    decreases schedule
  {
    if schedule == [] {
      assert schedule + [a] == [a];
      assert [a][1..] == [];
    } else {
      assert (schedule + [a])[1..] == schedule[1..] + [a];
      ReplaySnoc(c, Step(c, s, schedule[0]).value, schedule[1..], a);
    }
  }

  /** Takes the step a pick names, if it can be taken; `work` decides what a call returns. */
  method Try<T, R>(pool: Pool<T, R>, a: Action<R>, work: T -> Outcome<R>) returns (ok: bool)
    requires pool.Valid() && Running(pool.c, pool.View(), work)
    modifies pool, pool.workers, pool.results
    ensures pool.Valid() && Running(pool.c, pool.View(), work)
    ensures pool.View() == Tried(pool.c, old(pool.View()), a, work)
    ensures ok == Step(pool.c, old(pool.View()), Answered(pool.c, old(pool.View()), a, work)).Some?
    ensures ok ==> 0 <= Measure(pool.c, pool.View()) < old(Measure(pool.c, pool.View()))
  {
    ghost var s := pool.View();
    var b := a;
    if a.WorkReturns? && a.w < pool.workers.Length && pool.workers[a.w].Working? {
      assert WorkerOk(s.workers[a.w], a.w, s.fate, s.calls);
      b := WorkReturns(a.w, work(pool.c.items[pool.workers[a.w].i]));
    }
    assert b == Answered(pool.c, s, a, work);
    ok := pool.Fire(b);
    if ok {
      RunningStep(pool.c, s, a, work);
    }
  }

  /** Takes one step of an unfinished pool: of worker `w`, or with all of them gone of another goroutine. */
  method Advance<T, R>(pool: Pool<T, R>, w: nat, work: T -> Outcome<R>) returns (ghost b: Action<R>)
    requires pool.Valid() && Running(pool.c, pool.View(), work) && !Done(pool.View())
    requires if w < pool.workers.Length then !pool.workers[w].Exited? else AllExited(pool.workers[..])
    modifies pool, pool.workers, pool.results
    ensures pool.Valid() && Running(pool.c, pool.View(), work)
    ensures 0 <= Measure(pool.c, pool.View()) < old(Measure(pool.c, pool.View()))
    ensures !b.ParentCancel? && Step(pool.c, old(pool.View()), b) == Some(pool.View())
  {
    var a: Action<R>;
    if w < pool.workers.Length {
      match pool.workers[w] {
        case Idle =>
          a := if !pool.feeding then Leave(w) else if pool.next < |pool.c.items| then Feed(w) else StopFeeding;
        case Working(_) => a := WorkReturns(w, Value(pool.c.zero));
        case Sending(_, _) => a := Deliver(w);
        case Failing(_, _) => a := ReportError(w);
        case Cancelling => a := Cancel(w);
      }
    } else {
      a := if pool.outCloses == 0 then CloseOut else if pool.ret.None? then Finish else StopFeeding;
    }
    assert a == Next(pool.c, pool.View(), w, Value(pool.c.zero));
    NextIsEnabled(pool.c, pool.View(), w, Value(pool.c.zero), work);
    b := Answered(pool.c, pool.View(), a, work);
    var ok := Try(pool, a, work);
  }

  /** One step of an unfinished pool, and the worker whose turn is next. */
  method Round<T, R>(pool: Pool<T, R>, w: nat, work: T -> Outcome<R>, ghost start: State<R>, ghost done: seq<Action<R>>)
    returns (next: nat, ghost more: seq<Action<R>>)
    requires pool.Valid() && Running(pool.c, pool.View(), work) && !Done(pool.View())
    requires if w < pool.workers.Length then !pool.workers[w].Exited? else AllExited(pool.workers[..])
    requires Replay(pool.c, start, done) == Some(pool.View()) && Quiet(done)
    modifies pool, pool.workers, pool.results
    ensures pool.Valid() && Running(pool.c, pool.View(), work)
    ensures 0 <= Measure(pool.c, pool.View()) < old(Measure(pool.c, pool.View()))
    ensures if next < pool.workers.Length then !pool.workers[next].Exited? else AllExited(pool.workers[..])
    ensures Replay(pool.c, start, more) == Some(pool.View()) && Quiet(more)
  {
    ghost var b := Advance(pool, w, work);
    ReplaySnoc(pool.c, start, done, b);
    more := done + [b];
    next := pool.FirstActive();
  }

  /** Nobody cancels the caller's context in it. */
  predicate Quiet<R>(schedule: seq<Action<R>>) {
    forall i | 0 <= i < |schedule| :: !schedule[i].ParentCancel?
  }

  /** Lets the goroutines finish: every call ends, whatever `work` returns. */
  method Complete<T, R>(pool: Pool<T, R>, work: T -> Outcome<R>) returns (ghost rest: seq<Action<R>>)
    requires pool.Valid() && Running(pool.c, pool.View(), work)
    modifies pool, pool.workers, pool.results
    ensures pool.Valid() && Running(pool.c, pool.View(), work) && Done(pool.View())
    ensures Replay(pool.c, old(pool.View()), rest) == Some(pool.View()) && Quiet(rest)
  {
    ghost var start := pool.View();
    rest := [];
    var w: nat := pool.FirstActive();
    while w < pool.workers.Length || pool.ret.None? || pool.feeding
      invariant pool.Valid() && Running(pool.c, pool.View(), work)
      invariant if w < pool.workers.Length then !pool.workers[w].Exited? else AllExited(pool.workers[..])
      invariant Replay(pool.c, start, rest) == Some(pool.View()) && Quiet(rest)
      decreases Measure(pool.c, pool.View())
    {
      assert w < pool.workers.Length ==> !pool.View().workers[w].Exited?;
      w, rest := Round(pool, w, work, start, rest);
    }
  }

  /** Tries the picks in order. */
  method TryAll<T, R>(pool: Pool<T, R>, work: T -> Outcome<R>, picks: seq<Action<R>>)
    requires pool.Valid() && Running(pool.c, pool.View(), work)
    modifies pool, pool.workers, pool.results
    ensures pool.Valid() && Running(pool.c, pool.View(), work)
    ensures pool.View() == Picked(pool.c, old(pool.View()), picks, work)
  {
    var k := 0;
    while k < |picks|
      invariant 0 <= k <= |picks| && pool.Valid() && Running(pool.c, pool.View(), work)
      invariant Picked(pool.c, pool.View(), picks[k..], work) == Picked(pool.c, old(pool.View()), picks, work)
    {
      assert picks[k..][0] == picks[k] && picks[k..][1..] == picks[k + 1..];
      var ok := Try(pool, picks[k], work);
      k := k + 1;
    }
  }

  /**
   Runs the pool to its end under an arbitrary scheduler: each pick names the goroutine step to try
   next, and when they run out the goroutines finish without anybody cancelling. `work` decides what a
   call of work returns.
   Unless the caller's context is cancelled, the call returns the values item by item exactly when no
   item fails, and an item's error otherwise; a cancelled one returns an item's error, or a slice of
   values and untouched slots. In every case the answer is that of the picks followed by `rest`.
   */
  method Execute<T, R>(c: Config<T, R>, work: T -> Outcome<R>, picks: seq<Action<R>>)
    returns (ret: Return<R>, ghost rest: seq<Action<R>>, ghost end: State<R>)
    ensures !c.cancellable || Quiet(picks) ==> (ret.Ok? <==> forall i | 0 <= i < |c.items| :: work(c.items[i]).Value?)
    ensures ret.Ok? ==> |ret.results| == |c.items|
    ensures ret.Ok? ==> forall i | 0 <= i < |c.items| ::
              work(c.items[i]) == Value(ret.results[i])
              || (c.cancellable && !Quiet(picks) && ret.results[i] == c.zero)
    ensures ret.Err? ==> exists i | 0 <= i < |c.items| :: work(c.items[i]) == Failure(ret.error)
    ensures Replay(c, Picked(c, Init(c), picks, work), rest) == Some(end) && Quiet(rest)
    ensures Done(end) && end.ret == Some(ret)
  {
    var pool := new Pool(c);
    TryAll(pool, work, picks);
    PickedKeepsParent(c, Init(c), picks, work);
    rest := Complete(pool, work);
    end := pool.View();
    QuietKeepsParent(c, Picked(c, Init(c), picks, work), rest, end);
    ret := pool.ret.value;
    ReturnAgrees(c, end, work);
  }

  lemma {:induction false} PickedKeepsParent<T, R>(c: Config<T, R>, s: State<R>, picks: seq<Action<R>>,
                                                   work: T -> Outcome<R>)
    ensures Picked(c, s, picks, work).parentCancelled ==> s.parentCancelled || (c.cancellable && !Quiet(picks))
    decreases picks
  {
    if picks != [] {
      PickedKeepsParent(c, Tried(c, s, picks[0], work), picks[1..], work);
      assert !Quiet(picks[1..]) ==> !Quiet(picks);
    }
  }

  lemma {:induction false} QuietKeepsParent<T, R>(c: Config<T, R>, s: State<R>, schedule: seq<Action<R>>, t: State<R>)
    requires Replay(c, s, schedule) == Some(t) && Quiet(schedule)
    ensures t.parentCancelled == s.parentCancelled
    decreases schedule
  {
    if schedule != [] {
      assert !schedule[0].ParentCancel?;
      QuietKeepsParent(c, Step(c, s, schedule[0]).value, schedule[1..], t);
    }
  }

  lemma ReturnAgrees<T, R>(c: Config<T, R>, s: State<R>, work: T -> Outcome<R>)
    requires Running(c, s, work) && s.ret.Some?
    ensures var ret := s.ret.value;
            && (!s.parentCancelled && ret.Ok? ==> forall i | 0 <= i < |c.items| :: work(c.items[i]).Value?)
            && (ret.Ok? ==> |ret.results| == |c.items|)
            && (ret.Ok? ==> forall i | 0 <= i < |c.items| ::
                  work(c.items[i]) == Value(ret.results[i]) || (s.parentCancelled && ret.results[i] == c.zero))
            && (ret.Err? ==> exists i | 0 <= i < |c.items| :: work(c.items[i]) == Failure(ret.error))
  {
    if s.slot.Some? {
      var i := s.slot.value.item;
      assert FateOk(s.fate[i], i, s);
    } else {
      forall i | 0 <= i < |c.items|
        ensures work(c.items[i]) == Value(s.results[i]) || (s.parentCancelled && s.results[i] == c.zero)
      {
        if i < s.next {
          assert FateOk(s.fate[i], i, s);
        }
      }
    }
  }
}
