/** `pipeline.Merge` as mutable state: the goroutines' positions and the channels are updated in place. */
module MergeRun {
  import opened Prelude
  import opened Interleavings
  import opened Merge

  class Merger<T> {
    const chans: array<Channel<T>>
    const lanes: array<Lane<T>>
    var wanted: nat
    var output: seq<T>
    var outCloses: nat

    ghost function View(): State<T>
      reads this, chans, lanes
    {
      State(chans[..], lanes[..], wanted, output, outCloses)
    }

    /** The goroutines of one call; the channels already hold their values and are closed. */
    constructor (inputs: seq<seq<T>>, args: seq<nat>)
      requires Arguments(|inputs|, args)
      ensures fresh(chans) && fresh(lanes)
      ensures Running(inputs, args, View())
    {
      wanted, output, outCloses := 0, [], 0;
      chans := new Channel<T>[|inputs|](c requires 0 <= c < |inputs| => Channel(inputs[c], 0, true));
      lanes := new Lane<T>[|args|](k requires 0 <= k < |args| => Lane(args[k], Receiving, []));
      new;
      StartInv(args, View());
    }

    /** The reader starts a receive. */
    method Want()
      requires Step(View(), Action.Want).Some?
      modifies this
      ensures View() == Step(old(View()), Action.Want).value
    {
      wanted := wanted + 1;
    }

    method Receive(k: nat)
      requires Step(View(), Action.Receive(k)).Some?
      modifies chans, lanes
      ensures View() == Step(old(View()), Action.Receive(k)).value
    {
      var c := lanes[k].input;
      var ch := chans[c];
      lanes[k] := lanes[k].(hand := Holding(ch.sent[ch.taken]));
      chans[c] := ch.(taken := ch.taken + 1);
    }

    method Forward(k: nat)
      requires Step(View(), Action.Forward(k)).Some?
      modifies this, lanes
      ensures View() == Step(old(View()), Action.Forward(k)).value
    {
      var v := lanes[k].hand.v;
      output := output + [v];
      wanted := wanted - 1;
      lanes[k] := lanes[k].(hand := Receiving, passed := lanes[k].passed + [v]);
    }

    method Leave(k: nat)
      requires Step(View(), Action.Leave(k)).Some?
      modifies lanes
      ensures View() == Step(old(View()), Action.Leave(k)).value
    {
      lanes[k] := lanes[k].(hand := Exited);
    }

    method CloseOut()
      requires Step(View(), Action.CloseOut).Some?
      modifies this
      ensures View() == Step(old(View()), Action.CloseOut).value
    {
      outCloses := outCloses + 1;
      wanted := 0;
    }

    /** wg.Wait() looks for a forwarder that has not exited. */
    method FirstActive() returns (k: nat)
      ensures k <= lanes.Length
      ensures k < lanes.Length ==> !lanes[k].hand.Exited?
      ensures k == lanes.Length <==> AllExited(lanes[..])
    {
      k := 0;
      while k < lanes.Length && lanes[k].hand.Exited?
        invariant k <= lanes.Length
        invariant forall j | 0 <= j < k :: lanes[j].hand.Exited?
      {
        k := k + 1;
      }
      assert k < lanes.Length ==> !lanes[..][k].hand.Exited?;
    }

    /** Takes the next step of forwarder `k`. */
    method Move(k: nat)
      requires k < lanes.Length && lanes[k].input < chans.Length && Step(View(), Next(View(), k)).Some?
      modifies this, chans, lanes
      ensures View() == Step(old(View()), Next(old(View()), k)).value
    {
      var c := lanes[k].input;
      if lanes[k].hand.Holding? {
        Forward(k);
      } else if chans[c].taken < |chans[c].sent| {
        Receive(k);
      } else {
        Leave(k);
      }
    }
  }

  /** Before any goroutine has moved, whatever the channels hold. */
  lemma StartInv<T>(args: seq<nat>, s: State<T>)
    requires |s.lanes| == |args| && s.outCloses == 0 && s.output == []
    requires forall k | 0 <= k < |args| :: args[k] < |s.chans| && s.lanes[k] == Lane(args[k], Receiving, [])
    requires forall c | 0 <= c < |s.chans| :: s.chans[c].taken == 0
    ensures Inv(args, s)
  {
    BagOfNothing(AllGot(s.lanes));
    BagOfNothing(AllTaken(s.chans));
  }

  /** A call whose inputs were complete and closed before it started, and whose output is open. */
  ghost predicate Running<T>(inputs: seq<seq<T>>, args: seq<nat>, s: State<T>) {
    && Inv(args, s) && s.outCloses == 0 && |s.chans| == |inputs|
    && forall c | 0 <= c < |inputs| :: s.chans[c].closed && s.chans[c].sent == inputs[c]
  }

  lemma InputsStay<T>(s: State<T>, a: Action<T>, c: nat)
    requires Step(s, a).Some? && c < |s.chans| && s.chans[c].closed
    ensures |Step(s, a).value.chans| == |s.chans|
    ensures Step(s, a).value.chans[c].closed && Step(s, a).value.chans[c].sent == s.chans[c].sent
  {
  }

  lemma SizesStay<T>(s: State<T>, a: Action<T>)
    requires Step(s, a).Some?
    ensures |Step(s, a).value.chans| == |s.chans| && |Step(s, a).value.lanes| == |s.lanes|
    ensures !a.CloseOut? ==> Step(s, a).value.outCloses == s.outCloses
  {
  }

  lemma RunningStep<T>(inputs: seq<seq<T>>, args: seq<nat>, s: State<T>, a: Action<T>)
    requires Running(inputs, args, s) && Step(s, a).Some? && !a.CloseOut?
    ensures Running(inputs, args, Step(s, a).value)
    ensures Measure(Step(s, a).value) + (if Internal(a) then 1 else 0) <= Measure(s)
    ensures |Step(s, a).value.lanes| == |s.lanes|
  {
    var t := Step(s, a).value;
    StepInv(args, s, a);
    StepLowersMeasure(s, a);
    SizesStay(s, a);
    forall c | 0 <= c < |inputs|
      ensures t.chans[c].closed && t.chans[c].sent == inputs[c]
    {
      InputsStay(s, a, c);
    }
  }

  /** The step forwarder `k` takes next when a reader waits. */
  function Next<T>(s: State<T>, k: nat): Action<T>
    requires k < |s.lanes|
  {
    if s.lanes[k].hand.Holding? then Forward(k)
    else if s.lanes[k].input < |s.chans| && s.chans[s.lanes[k].input].taken < |s.chans[s.lanes[k].input].sent| then
      Receive(k)
    else Leave(k)
  }

  lemma NextIsEnabled<T>(inputs: seq<seq<T>>, args: seq<nat>, s: State<T>, k: nat)
    requires Running(inputs, args, s) && k < |s.lanes| && !s.lanes[k].hand.Exited?
    requires s.lanes[k].hand.Holding? ==> s.wanted > 0
    ensures s.lanes[k].input < |s.chans| && Step(s, Next(s, k)).Some?
  {
    assert LaneOk(s.lanes[k], args[k], s.chans);
  }

  /** Lets forwarder `k` take its next step, with a reader that receives whatever is offered. */
  method Advance<T>(m: Merger<T>, k: nat, ghost inputs: seq<seq<T>>, ghost args: seq<nat>)
    requires Running(inputs, args, m.View()) && k < m.lanes.Length && !m.lanes[k].hand.Exited?
    modifies m, m.chans, m.lanes
    ensures Running(inputs, args, m.View())
    ensures Measure(m.View()) < old(Measure(m.View()))
  {
    if m.wanted == 0 {
      RunningStep(inputs, args, m.View(), Action.Want);
      m.Want();
    }
    ghost var s := m.View();
    NextIsEnabled(inputs, args, s, k);
    RunningStep(inputs, args, s, Next(s, k));
    m.Move(k);
  }

  /** One step of forwarder `k`, and the forwarder whose turn is next. */
  method Round<T>(m: Merger<T>, k: nat, ghost inputs: seq<seq<T>>, ghost args: seq<nat>) returns (next: nat)
    requires Running(inputs, args, m.View()) && k < m.lanes.Length && !m.lanes[k].hand.Exited?
    modifies m, m.chans, m.lanes
    ensures Running(inputs, args, m.View()) && Measure(m.View()) < old(Measure(m.View()))
    ensures next <= m.lanes.Length && (next < m.lanes.Length ==> !m.lanes[next].hand.Exited?)
    ensures next == m.lanes.Length ==> AllExited(m.View().lanes)
  {
    Advance(m, k, inputs, args);
    next := m.FirstActive();
  }

  /** Lets the forwarders finish one after another. */
  method Finish<T>(m: Merger<T>, ghost inputs: seq<seq<T>>, ghost args: seq<nat>)
    requires Running(inputs, args, m.View())
    modifies m, m.chans, m.lanes
    ensures Running(inputs, args, m.View()) && AllExited(m.View().lanes)
  {
    var k: nat := m.FirstActive();
    while k < m.lanes.Length
      invariant Running(inputs, args, m.View())
      invariant k <= m.lanes.Length && (k < m.lanes.Length ==> !m.lanes[k].hand.Exited?)
      invariant k == m.lanes.Length ==> AllExited(m.View().lanes)
      decreases Measure(m.View())
    {
      k := Round(m, k, inputs, args);
    }
  }

  /**
   Merges closed channels under an arbitrary scheduler, with a reader that ranges over the output:
   `picks` chooses which forwarder moves, and when it runs out they finish one after another. The output
   interleaves what each forwarder passed on, and each channel's values were dealt out in order to the
   forwarders that read it.
   */
  method MergeAll<T>(inputs: seq<seq<T>>, args: seq<nat>, picks: seq<nat>)
    returns (out: seq<T>, ghost passed: seq<seq<T>>)
    requires Arguments(|inputs|, args)
    ensures |passed| == |args| && Interleaving(out, passed)
    ensures forall c | c in args :: Interleaving(inputs[c], ShareOf(args, passed, c))
    ensures multiset(out) == Bag(Chosen(args, inputs))
    ensures Distinct(args) ==> Interleaving(out, Chosen(args, inputs))
  {
    var m := new Merger(inputs, args);
    var i := 0;
    while i < |picks|
      invariant fresh(m) && fresh(m.chans) && fresh(m.lanes)
      invariant Running(inputs, args, m.View())
    {
      if picks[i] < m.lanes.Length && !m.lanes[picks[i]].hand.Exited? {
        Advance(m, picks[i], inputs, args);
      }
      i := i + 1;
    }
    Finish(m, inputs, args);
    assert AllSent(m.View().chans) == inputs;
    StepInv(args, m.View(), Action.CloseOut);
    m.CloseOut();
    out := m.output;
    passed := Passed(m.View().lanes);
    FinishedOutput(args, m.View());
    forall c | c in args
      ensures Interleaving(inputs[c], ShareOf(args, passed, c))
    {
      FinishedShares(args, m.View(), c);
    }
  }
}
