/** What the protocol guarantees over whole runs with redelivery, lost replies and repeated publishes. */
module StreamResults {
  import opened Prelude
  import opened Stream

  lemma StepInv(c: Config, s: State, a: Action)
    requires Inv(c, s) && Step(c, s, a).Some?
    ensures Inv(c, Step(c, s, a).value)
  {
    match a
    case Publish(_) => PublishInv(c, s, a);
    case PublishGarbage => PublishInv(c, s, a);
    case Deliver(k, m) => DeliverInv(c, s, k, m);
    case Begin(k, m, arrives) => BeginInv(c, s, k, m, arrives);
    case SendReturns(k, ok) => SendReturnsInv(c, s, k, ok);
    case Conclude(k, arrives) => ConcludeInv(c, s, k, arrives);
  }

  lemma {:induction false} ReplayInv(c: Config, s: State, schedule: seq<Action>)
    requires Inv(c, s) && Replay(c, s, schedule).Some?
    ensures Inv(c, Replay(c, s, schedule).value)
    decreases schedule
  {
    if schedule != [] {
      StepInv(c, s, schedule[0]);
      ReplayInv(c, Step(c, s, schedule[0]).value, schedule[1..]);
    }
  }

  lemma ReachableInv(c: Config, schedule: seq<Action>, s: State)
    requires Capped(c) && Reaches(c, schedule, s)
    ensures Inv(c, s)
  {
    InitInv(c);
    ReplayInv(c, Init(c), schedule);
  }

  lemma {:induction false} ReplayConcat(c: Config, s: State, first: seq<Action>, second: seq<Action>)
    requires Replay(c, s, first).Some?
    ensures Replay(c, s, first + second) == Replay(c, Replay(c, s, first).value, second)
    decreases first
  {
    if first == [] {
      assert first + second == second;
    } else {
      assert (first + second)[1..] == first[1..] + second;
      ReplayConcat(c, Step(c, s, first[0]).value, first[1..], second);
    }
  }

  // ----- at most one successful send per event -----

  /** Handler runs on the shared dedup store cannot overlap. */
  predicate Exclusive(c: Config) {
    c.serialised || |c.specs| <= 1
  }

  function IdAt(s: State, m: nat): string
    requires m < |s.log| && s.log[m].p.Parsed?
  {
    s.log[m].p.e.id
  }

  /** Holds when runs are exclusive: one busy handler, and a sent ID is marked or about to be. */
  ghost predicate OnceInv(s: State) {
    && (forall j, k | 0 <= j < k < |s.consumers| :: s.consumers[j].pc.Idle? || s.consumers[k].pc.Idle?)
    && (forall id | id in s.sends :: |s.sends[id]| == 1)
    && (forall k | 0 <= k < |s.consumers| && s.consumers[k].pc.Calling? ::
          s.consumers[k].pc.m < |s.log| && IsEvent(s.log[s.consumers[k].pc.m])
          && s.log[s.consumers[k].pc.m].p.e.id !in s.sends)
    && (forall id | id in s.sends && id !in s.seen ::
          s.sends[id][0].who < |s.consumers|
          && s.consumers[s.sends[id][0].who].pc.Succeeded?
          && s.consumers[s.sends[id][0].who].pc.m == s.sends[id][0].of)
  }

  lemma OnceSend(c: Config, s: State, k: nat, ok: bool)
    requires Inv(c, s) && OnceInv(s) && SendReturnsStep(s, k, ok).Some?
    ensures OnceInv(SendReturnsStep(s, k, ok).value)
  {
    assert ConsumerOk(s.consumers[k], k, s.log, s.seen);
  }

  /** A lone handler that ends its run leaves every event that was sent marked. */
  lemma ConcludingMarks(c: Config, s: State, k: nat, arrives: bool, id: string)
    requires Inv(c, s) && OnceInv(s) && ConcludeStep(s, k, arrives).Some? && id in s.sends
    ensures id in ConcludeStep(s, k, arrives).value.seen
  {
    ConcludeMoves(c, s, ConcludeStep(s, k, arrives).value, k, arrives);
    assert s.sends[id][0].who == k || id in s.seen;
    assert SentOk(s, id, s.sends[id][0]);
  }

  lemma OnceConclude(c: Config, s: State, k: nat, arrives: bool)
    requires Inv(c, s) && OnceInv(s) && ConcludeStep(s, k, arrives).Some?
    ensures OnceInv(ConcludeStep(s, k, arrives).value)
  {
    ConcludeMoves(c, s, ConcludeStep(s, k, arrives).value, k, arrives);
    forall id | id in s.sends
      ensures id in ConcludeStep(s, k, arrives).value.seen
    {
      ConcludingMarks(c, s, k, arrives, id);
    }
  }

  /** Starting a run sends nothing; it goes on to call send only for an unmarked event. */
  lemma BeginSendsNothing(c: Config, s: State, t: State, k: nat, m: nat, arrives: bool)
    requires Inv(c, s) && BeginStep(c, s, k, m, arrives) == Some(t)
    ensures t.sends == s.sends && t.seen == s.seen && t.log == s.log && k < |s.consumers| == |t.consumers|
    ensures t.consumers == s.consumers[k := t.consumers[k]]
    ensures !t.consumers[k].pc.Idle? ==>
              t.consumers[k].pc.Calling? && t.consumers[k].pc.m == m
              && m < |s.log| && IsEvent(s.log[m]) && s.log[m].p.e.id !in s.seen
  {
    BeginMoves(c, s, t, k, m, arrives);
  }

  /** Whatever a lone handler starts on is not sent yet. */
  lemma UnmarkedIsUnsent(s: State, id: string)
    requires OnceInv(s) && AllIdle(s.consumers) && id !in s.seen
    ensures id !in s.sends
  {
  }

  lemma OnceBegin(c: Config, s: State, k: nat, m: nat, arrives: bool)
    requires Exclusive(c) && Inv(c, s) && OnceInv(s) && BeginStep(c, s, k, m, arrives).Some?
    ensures OnceInv(BeginStep(c, s, k, m, arrives).value)
  {
    var t := BeginStep(c, s, k, m, arrives).value;
    BeginSendsNothing(c, s, t, k, m, arrives);
    OnceAfterBegin(s, t, k);
  }

  lemma OnceAfterBegin(s: State, t: State, k: nat)
    requires OnceInv(s) && AllIdle(s.consumers) && k < |s.consumers| == |t.consumers|
    requires (t.log, t.seen, t.sends) == (s.log, s.seen, s.sends) && t.consumers == s.consumers[k := t.consumers[k]]
    requires !t.consumers[k].pc.Idle? ==>
               t.consumers[k].pc.Calling? && t.consumers[k].pc.m < |s.log|
               && IsEvent(s.log[t.consumers[k].pc.m]) && s.log[t.consumers[k].pc.m].p.e.id !in s.seen
    ensures OnceInv(t)
  {
    if !t.consumers[k].pc.Idle? {
      UnmarkedIsUnsent(s, s.log[t.consumers[k].pc.m].p.e.id);
    }
    assert forall id | id in s.sends :: id in s.seen;
  }

  lemma OnceDeliver(c: Config, s: State, k: nat, m: nat)
    requires OnceInv(s) && Step(c, s, Deliver(k, m)).Some?
    ensures OnceInv(Step(c, s, Deliver(k, m)).value)
  {
  }

  lemma OnceStep(c: Config, s: State, a: Action)
    requires Exclusive(c) && Inv(c, s) && OnceInv(s) && Step(c, s, a).Some?
    ensures OnceInv(Step(c, s, a).value)
  {
    match a
    case Begin(k, m, arrives) => OnceBegin(c, s, k, m, arrives);
    case SendReturns(k, ok) => OnceSend(c, s, k, ok);
    case Conclude(k, arrives) => OnceConclude(c, s, k, arrives);
    case Deliver(k, m) => OnceDeliver(c, s, k, m);
    case _ =>
  }

  lemma {:induction false} OnceReplay(c: Config, s: State, schedule: seq<Action>)
    requires Exclusive(c) && Inv(c, s) && OnceInv(s) && Replay(c, s, schedule).Some?
    ensures OnceInv(Replay(c, s, schedule).value)
    decreases schedule
  {
    if schedule != [] {
      OnceStep(c, s, schedule[0]);
      StepInv(c, s, schedule[0]);
      OnceReplay(c, Step(c, s, schedule[0]).value, schedule[1..]);
    }
  }

  ghost predicate SendsAtMostOnce(c: Config) {
    forall schedule, s, id | Reaches(c, schedule, s) :: |SendsOf(s, id)| <= 1
  }

  /** Two handlers have passed the Seen check before either marks. */
  lemma BothPassTheCheck(c: Config, e: Event) returns (schedule: seq<Action>, s: State)
    requires Capped(c) && |c.specs| >= 2 && !c.serialised
    ensures Reaches(c, schedule, s) && s.log == [Created(Parsed(e))] && s.sends == map[] && |s.consumers| >= 2
    ensures s.consumers[0].pc == s.consumers[1].pc == Calling(0, 1)
  {
    assert c.specs[0].maxDeliver >= 1 && c.specs[1].maxDeliver >= 1;
    var s0 := Init(c);
    var s1 := Step(c, s0, Publish(e)).value;
    var s2 := Step(c, s1, Deliver(0, 0)).value;
    var s3 := Step(c, s2, Deliver(1, 0)).value;
    var s4 := Step(c, s3, Begin(0, 0, true)).value;
    s := Step(c, s4, Begin(1, 0, true)).value;
    var l5: seq<Action> := [Begin(1, 0, true)];
    var l4 := [Begin(0, 0, true)] + l5;
    var l3 := [Deliver(1, 0)] + l4;
    var l2 := [Deliver(0, 0)] + l3;
    schedule := [Publish(e)] + l2;
    assert l5[1..] == [] && l4[1..] == l5 && l3[1..] == l4 && l2[1..] == l3 && schedule[1..] == l2;
    assert Replay(c, s3, l4) == Replay(c, s4, l5) == Some(s);
    assert Replay(c, s1, l2) == Replay(c, s2, l3) == Some(s);
  }

  /** Two handlers both pass the Seen check before either marks, and both send. */
  lemma OverlapSendsTwice(c: Config, e: Event) returns (schedule: seq<Action>, s: State)
    requires Capped(c) && |c.specs| >= 2 && !c.serialised
    ensures Reaches(c, schedule, s) && SendsOf(s, e.id) == [Sent(0, 0), Sent(1, 0)]
  {
    var checks, s5 := BothPassTheCheck(c, e);
    var s6 := Step(c, s5, SendReturns(0, true)).value;
    s := Step(c, s6, SendReturns(1, true)).value;
    var sends: seq<Action> := [SendReturns(0, true), SendReturns(1, true)];
    assert sends[1..] == [SendReturns(1, true)] && sends[1..][1..] == [];
    assert Replay(c, s5, sends) == Replay(c, s6, sends[1..]) == Some(s);
    ReplayConcat(c, Init(c), checks, sends);
    schedule := checks + sends;
  }

  /**
   Whatever is redelivered, lost or published again, and whichever consumers replay the stream on the
   same dedup store, an event is sent at most once in every run exactly when handler runs cannot overlap.
   */
  lemma AtMostOnceIffExclusive(c: Config)
    requires Capped(c)
    ensures SendsAtMostOnce(c) <==> Exclusive(c)
  {
    if Exclusive(c) {
      forall schedule, s, id | Reaches(c, schedule, s)
        ensures |SendsOf(s, id)| <= 1
      {
        InitInv(c);
        OnceReplay(c, Init(c), schedule);
      }
    } else {
      var schedule, s := OverlapSendsTwice(c, Event("cus_1", "ada@pulse.dev", "Ada", 0));
      assert |SendsOf(s, "cus_1")| == 2;
    }
  }

  // ----- a redelivered duplicate -----

  /** The handler's checks are open to consumer `k` for its next delivery of the event stored at `m`. */
  predicate CanBegin(c: Config, s: State, k: nat, m: nat) {
    && k < |s.consumers| && s.consumers[k].pc.Idle? && (c.serialised ==> AllIdle(s.consumers))
    && m < |s.log| && IsEvent(s.log[m]) && Rec(s.consumers[k], m).handled < Rec(s.consumers[k], m).delivered
  }

  /**
   In every reachable state a delivery whose ID is marked is answered with an Ack and nothing else, by
   both versions of the handler: no send, no mark, no dead letter, and the open message is settled as
   acknowledged if the reply arrives.
   */
  lemma DuplicateIsOnlyAcked(c: Config, schedule: seq<Action>, s: State, k: nat, m: nat, arrives: bool)
    requires Capped(c) && Reaches(c, schedule, s) && CanBegin(c, s, k, m) && IdAt(s, m) in s.seen
    ensures var r := Rec(s.consumers[k], m);
            var after := r.(handled := r.handled + 1, skipped := r.skipped + 1,
                            settled := if arrives && r.settled.Open? then Acked else r.settled);
            Step(c, s, Begin(k, m, arrives)) == Some(Put(s, k, m, after, Idle))
  {
    ReachableInv(c, schedule, s);
    NeverOverDelivered(c, s, k, m);
  }

  /** `id` is marked, and no handler is in the middle of an event with that ID. */
  predicate Done(s: State, id: string) {
    && id in s.seen
    && forall k | 0 <= k < |s.consumers| && !s.consumers[k].pc.Idle? ::
         s.consumers[k].pc.m < |s.log| && s.log[s.consumers[k].pc.m].p.Parsed? && IdAt(s, s.consumers[k].pc.m) != id
  }

  /** No send and no dead letter of `id` happened between `s` and `t`. */
  predicate NothingMore(s: State, t: State, id: string) {
    && SendsOf(t, id) == SendsOf(s, id) && s.log <= t.log
    && forall i | |s.log| <= i < |t.log| && t.log[i].Dead? :: t.log[i].p.Parsed? && IdAt(t, i) != id
  }

  lemma DoneBegin(c: Config, s: State, t: State, k: nat, m: nat, arrives: bool, id: string)
    requires Inv(c, s) && Done(s, id) && BeginStep(c, s, k, m, arrives) == Some(t)
    ensures Done(t, id) && NothingMore(s, t, id)
  {
    BeginSendsNothing(c, s, t, k, m, arrives);
  }

  lemma DoneConclude(c: Config, s: State, t: State, k: nat, arrives: bool, id: string)
    requires Inv(c, s) && Done(s, id) && ConcludeStep(s, k, arrives) == Some(t)
    ensures Done(t, id) && NothingMore(s, t, id)
  {
    ConcludeMoves(c, s, t, k, arrives);
  }

  lemma DoneStep(c: Config, s: State, a: Action, id: string)
    requires Inv(c, s) && Done(s, id) && Step(c, s, a).Some?
    ensures Done(Step(c, s, a).value, id) && NothingMore(s, Step(c, s, a).value, id)
  {
    var t := Step(c, s, a).value;
    match a
    case Begin(k, m, arrives) => DoneBegin(c, s, t, k, m, arrives, id);
    case Conclude(k, arrives) => DoneConclude(c, s, t, k, arrives, id);
    case Deliver(k, m) => DeliverMoves(c, s, t, k, m);
    case SendReturns(k, ok) => assert t.log == s.log && t.seen == s.seen;
    case _ => PublishLog(c, s, a);
  }

  /** Once an event is marked and no handler is inside it, no later step of any run sends or dead-letters it. */
  lemma {:induction false} MarkedStaysDone(c: Config, s: State, later: seq<Action>, t: State, id: string)
    requires Inv(c, s) && Done(s, id) && Replay(c, s, later) == Some(t)
    ensures Done(t, id) && NothingMore(s, t, id)
    decreases later
  {
    if later != [] {
      var u := Step(c, s, later[0]).value;
      DoneStep(c, s, later[0], id);
      StepInv(c, s, later[0]);
      MarkedStaysDone(c, u, later[1..], t, id);
    }
  }

  // ----- settled messages -----

  lemma SettledStep(c: Config, s: State, a: Action, k: nat, m: nat)
    requires k < |s.consumers| && !Rec(s.consumers[k], m).settled.Open? && Step(c, s, a).Some?
    ensures var t := Step(c, s, a).value;
            && |t.consumers| == |s.consumers|
            && Rec(t.consumers[k], m).settled == Rec(s.consumers[k], m).settled
            && Rec(t.consumers[k], m).delivered == Rec(s.consumers[k], m).delivered
  {
  }

  /** A message that is acknowledged or terminated stays so and is never delivered to that consumer again. */
  lemma {:induction false} SettledIsFinal(c: Config, s: State, later: seq<Action>, t: State, k: nat, m: nat)
    requires k < |s.consumers| && !Rec(s.consumers[k], m).settled.Open? && Replay(c, s, later) == Some(t)
    ensures |t.consumers| == |s.consumers| && Rec(t.consumers[k], m).settled == Rec(s.consumers[k], m).settled
    ensures Rec(t.consumers[k], m).delivered == Rec(s.consumers[k], m).delivered
    ensures Step(c, t, Deliver(k, m)).None? && Deliver(k, m) !in later
    decreases later
  {
    if later != [] {
      assert later[0] != Deliver(k, m);
      SettledStep(c, s, later[0], k, m);
      SettledIsFinal(c, Step(c, s, later[0]).value, later[1..], t, k, m);
      assert later == [later[0]] + later[1..];
    }
  }

  /**
   Bytes that do not parse are terminated: a handler run on them sends, marks and stores nothing, and
   once its Term arrives the message is never delivered to that consumer again. If the Term is lost the
   message stays open.
   */
  lemma GarbageIsTerminated(c: Config, s: State, k: nat, m: nat, arrives: bool, u: State, later: seq<Action>, t: State)
    requires m < |s.log| && s.log[m] == Created(Garbage) && Step(c, s, Begin(k, m, arrives)) == Some(u)
    requires k < |s.consumers| && Rec(s.consumers[k], m).settled == Open && Replay(c, u, later) == Some(t)
    ensures (u.log, u.ids, u.seen, u.sends) == (s.log, s.ids, s.seen, s.sends)
    ensures |u.consumers| == |s.consumers| && u.consumers[k].pc == Idle
    ensures Rec(u.consumers[k], m).settled == (if arrives then Terminated else Open)
    ensures arrives ==> |t.consumers| == |s.consumers| && Rec(t.consumers[k], m).settled == Terminated
                        && Rec(t.consumers[k], m).delivered == Rec(s.consumers[k], m).delivered
                        && Deliver(k, m) !in later
  {
    if arrives {
      SettledIsFinal(c, u, later, t, k, m);
    }
  }

  /** When a message can be delivered and a handler can go on; replies may arrive or not, Send may end either way. */
  lemma ReadySteps(c: Config, s: State, k: nat, m: nat, ok: bool, arrives: bool)
    requires Inv(c, s) && k < |s.consumers| && m < |s.log|
    ensures Step(c, s, Deliver(k, m)).Some? <==>
            s.log[m].Created? && Rec(s.consumers[k], m).settled.Open?
            && Rec(s.consumers[k], m).delivered < c.specs[k].maxDeliver
    ensures Step(c, s, Begin(k, m, arrives)).Some? <==>
            s.consumers[k].pc.Idle? && (c.serialised ==> AllIdle(s.consumers))
            && Rec(s.consumers[k], m).handled < Rec(s.consumers[k], m).delivered
    ensures Step(c, s, SendReturns(k, ok)).Some? <==> s.consumers[k].pc.Calling?
    ensures Step(c, s, Conclude(k, arrives)).Some? <==> s.consumers[k].pc.Succeeded? || s.consumers[k].pc.Refused?
  {
    assert ConsumerOk(s.consumers[k], k, s.log, s.seen);
  }

  // ----- sent or dead-lettered -----

  /** Consumer `k` will not act on message `m` again: it is settled, or its deliveries are used up and handled. */
  predicate Finished(s: State, k: nat, m: nat)
    requires k < |s.consumers|
  {
    !OnMessage(s.consumers[k].pc, m)
    && (!Rec(s.consumers[k], m).settled.Open? || Rec(s.consumers[k], m).handled == s.consumers[k].spec.maxDeliver)
  }

  /** Consumer `k` stored one dead letter for message `m`, after `maxDeliver` failed sends and no other outcome. */
  predicate ParkedOnce(s: State, k: nat, m: nat)
    requires k < |s.consumers| && m < |s.log|
  {
    var r := Rec(s.consumers[k], m);
    && r.deadAt.Some? && r.deadAt.value < |s.log| && s.log[r.deadAt.value] == Dead(s.log[m].p, k, m)
    && (forall i | 0 <= i < |s.log| && s.log[i].Dead? && s.log[i].who == k && s.log[i].of == m :: i == r.deadAt.value)
    && r.fails == r.handled == s.consumers[k].spec.maxDeliver && r.sends == r.skipped == 0
  }

  /** No consumer loses an event: what it has finished with was sent by someone, or it parked it once. */
  lemma FinishedIsSentOrParked(c: Config, schedule: seq<Action>, s: State, k: nat, m: nat)
    requires Capped(c) && Reaches(c, schedule, s)
    requires k < |s.consumers| && m < |s.log| && IsEvent(s.log[m]) && Finished(s, k, m)
    ensures SendsOf(s, IdAt(s, m)) != [] || ParkedOnce(s, k, m)
    ensures (exists i | 0 <= i < |s.log| :: s.log[i].Dead? && s.log[i].who == k && s.log[i].of == m)
            ==> ParkedOnce(s, k, m)
  {
    ReachableInv(c, schedule, s);
    var x := s.consumers[k];
    assert ConsumerOk(x, k, s.log, s.seen);
    assert RecordOk(x.spec.maxDeliver, Rec(x, m), x.pc, m, k, s.log, s.seen);
  }

  lemma OneConsumerMadeTheSend(c: Config, s: State, m: nat)
    requires |c.specs| == 1 && Inv(c, s) && m < |s.log| && IsEvent(s.log[m])
    ensures SendsOf(s, IdAt(s, m)) != [] ==> Rec(s.consumers[0], m).sends > 0
  {
    var id := IdAt(s, m);
    if SendsOf(s, id) != [] {
      assert SentOk(s, id, s.sends[id][0]);
    }
  }

  /** With one consumer the two outcomes exclude each other. */
  lemma OneConsumerNeverBoth(c: Config, s: State, m: nat)
    requires |c.specs| == 1 && Inv(c, s)
    requires m < |s.log| && IsEvent(s.log[m]) && Rec(s.consumers[0], m).deadAt.Some?
    ensures SendsOf(s, IdAt(s, m)) == []
  {
    var x := s.consumers[0];
    assert ConsumerOk(x, 0, s.log, s.seen);
    assert RecordOk(x.spec.maxDeliver, Rec(x, m), x.pc, m, 0, s.log, s.seen);
    OneConsumerMadeTheSend(c, s, m);
  }

  ghost predicate SentXorParked(c: Config) {
    forall schedule, s, k, m |
      && Reaches(c, schedule, s)
      && 0 <= k < |s.consumers| && 0 <= m < |s.log| && IsEvent(s.log[m]) && Finished(s, k, m) ::
      (SendsOf(s, IdAt(s, m)) != []) != ParkedOnce(s, k, m)
  }

  /** One event is stored, consumer 0 failed it `j` times, and no other consumer did anything. */
  predicate Failing(c: Config, e: Event, s: State, j: nat) {
    && s.log == [Created(Parsed(e))] && s.seen == {} && s.sends == map[]
    && |s.consumers| == |c.specs| >= 2 && AllIdle(s.consumers) && s.consumers[0].spec == c.specs[0]
    && Rec(s.consumers[0], 0) == Record(j, j, j, 0, 0, Open, None)
    && s.consumers[1] == Consumer(c.specs[1], map[], Idle)
  }

  /** One more delivery to consumer 0, whose send fails. */
  function FailOnce(): seq<Action> {
    [Deliver(0, 0), Begin(0, 0, true), SendReturns(0, false), Conclude(0, true)]
  }

  lemma FailOnceFails(c: Config, e: Event, s: State, j: nat) returns (t: State)
    requires Failing(c, e, s, j) && j < c.specs[0].maxDeliver
    ensures Replay(c, s, FailOnce()) == Some(t)
    ensures j + 1 < c.specs[0].maxDeliver ==> Failing(c, e, t, j + 1)
    ensures j + 1 == c.specs[0].maxDeliver ==>
              && t.log == [Created(Parsed(e)), Dead(Parsed(e), 0, 0)] && t.seen == {} && t.sends == map[]
              && |t.consumers| == |c.specs| && AllIdle(t.consumers) && t.consumers[0].spec == c.specs[0]
              && Rec(t.consumers[0], 0) == Record(j + 1, j + 1, j + 1, 0, 0, Terminated, Some(1))
              && t.consumers[1] == Consumer(c.specs[1], map[], Idle)
  {
    var s1 := Step(c, s, Deliver(0, 0)).value;
    var s2 := Step(c, s1, Begin(0, 0, true)).value;
    var s3 := Step(c, s2, SendReturns(0, false)).value;
    t := Step(c, s3, Conclude(0, true)).value;
    var l := FailOnce();
    assert l[1..] == [Begin(0, 0, true), SendReturns(0, false), Conclude(0, true)];
    assert l[1..][1..] == [SendReturns(0, false), Conclude(0, true)];
    assert l[1..][1..][1..] == [Conclude(0, true)];
    assert l[1..][1..][1..][1..] == [];
    assert Replay(c, s3, l[1..][1..][1..]) == Some(t);
    assert Replay(c, s1, l[1..]) == Replay(c, s2, l[1..][1..]) == Some(t);
  }

  lemma {:induction false} FailUntilParked(c: Config, e: Event, s: State, j: nat)
    returns (schedule: seq<Action>, t: State)
    requires Failing(c, e, s, j) && j < c.specs[0].maxDeliver
    ensures Replay(c, s, schedule) == Some(t)
    ensures t.log == [Created(Parsed(e)), Dead(Parsed(e), 0, 0)] && t.seen == {} && t.sends == map[]
    ensures |t.consumers| == |c.specs| && AllIdle(t.consumers) && t.consumers[1] == Consumer(c.specs[1], map[], Idle)
    ensures t.consumers[0].spec == c.specs[0]
    ensures var cap := c.specs[0].maxDeliver;
            Rec(t.consumers[0], 0) == Record(cap, cap, cap, 0, 0, Terminated, Some(1))
    decreases c.specs[0].maxDeliver - j
  {
    t := FailOnceFails(c, e, s, j);
    schedule := FailOnce();
    if j + 1 < c.specs[0].maxDeliver {
      var rest;
      var u := t;
      rest, t := FailUntilParked(c, e, u, j + 1);
      ReplayConcat(c, s, schedule, rest);
      schedule := schedule + rest;
    }
  }

  /** Consumer 1 has not touched the parked event yet, and now sends it. */
  lemma OtherConsumerSends(c: Config, e: Event, s: State) returns (schedule: seq<Action>, t: State)
    requires Capped(c) && |s.consumers| == |c.specs| >= 2 && AllIdle(s.consumers)
    requires s.log == [Created(Parsed(e)), Dead(Parsed(e), 0, 0)] && s.seen == {} && s.sends == map[]
    requires s.consumers[1] == Consumer(c.specs[1], map[], Idle)
    ensures Replay(c, s, schedule) == Some(t)
    ensures t.log == s.log && |t.consumers| >= 2 && t.consumers[0] == s.consumers[0] && SendsOf(t, e.id) != []
  {
    assert c.specs[1].maxDeliver >= 1;
    var s1 := Step(c, s, Deliver(1, 0)).value;
    var s2 := Step(c, s1, Begin(1, 0, true)).value;
    t := Step(c, s2, SendReturns(1, true)).value;
    var l2: seq<Action> := [SendReturns(1, true)];
    var l1 := [Begin(1, 0, true)] + l2;
    schedule := [Deliver(1, 0)] + l1;
    assert l2[1..] == [] && l1[1..] == l2 && schedule[1..] == l1;
    assert Replay(c, s1, l1) == Replay(c, s2, l2) == Some(t);
  }

  /** Consumer 0 gives an event up and parks it; consumer 1 later sends it. */
  lemma TwoConsumersCanDoBoth(c: Config, e: Event) returns (schedule: seq<Action>, s: State)
    requires Capped(c) && |c.specs| >= 2
    ensures Reaches(c, schedule, s) && |s.consumers| >= 1 && |s.log| >= 1
    ensures IsEvent(s.log[0]) && Finished(s, 0, 0) && SendsOf(s, IdAt(s, 0)) != [] && ParkedOnce(s, 0, 0)
  {
    assert c.specs[0].maxDeliver >= 1;
    var s1 := Step(c, Init(c), Publish(e)).value;
    assert Replay(c, Init(c), [Publish(e)]) == Some(s1) by {
      assert [Publish(e)][1..] == [];
    }
    var fails, s2 := FailUntilParked(c, e, s1, 0);
    var sends;
    sends, s := OtherConsumerSends(c, e, s2);
    ReplayConcat(c, s1, fails, sends);
    ReplayConcat(c, Init(c), [Publish(e)], fails + sends);
    schedule := [Publish(e)] + (fails + sends);
  }

  /**
   Every event a consumer has finished with is either successfully sent or dead-lettered once, never
   both, in every run exactly when there is at most one consumer.
   */
  lemma SentXorParkedIffOneConsumer(c: Config)
    requires Capped(c)
    ensures SentXorParked(c) <==> |c.specs| <= 1
  {
    if |c.specs| <= 1 {
      forall schedule, s, k, m |
        && Reaches(c, schedule, s)
        && 0 <= k < |s.consumers| && 0 <= m < |s.log| && IsEvent(s.log[m]) && Finished(s, k, m)
        ensures (SendsOf(s, IdAt(s, m)) != []) != ParkedOnce(s, k, m)
      {
        ReachableInv(c, schedule, s);
        FinishedIsSentOrParked(c, schedule, s, k, m);
        if ParkedOnce(s, k, m) {
          OneConsumerNeverBoth(c, s, m);
        }
      }
    } else {
      var schedule, s := TwoConsumersCanDoBoth(c, Event("cus_1", "ada@pulse.dev", "Ada", 0));
      assert !SentXorParked(c);
    }
  }

  // ----- the two versions of the handler -----

  /** The same consumers under other handler versions. */
  predicate SameButVersions(c: Config, d: Config) {
    && |c.specs| == |d.specs| && c.serialised == d.serialised
    && forall k | 0 <= k < |c.specs| :: c.specs[k].maxDeliver == d.specs[k].maxDeliver
  }

  /** The state with the consumers' versions replaced by those of `d`. */
  function Recast(s: State, d: Config): State
    requires |s.consumers| == |d.specs|
  {
    s.(consumers := seq(|s.consumers|, k requires 0 <= k < |s.consumers| => s.consumers[k].(spec := d.specs[k])))
  }

  /** Put on the recast state is the recast Put. */
  lemma RecastPut(s: State, d: Config, k: nat, m: nat, r: Record, pc: Pc)
    requires k < |s.consumers| == |d.specs|
    ensures Recast(Put(s, k, m, r, pc), d) == Put(Recast(s, d), k, m, r, pc)
  {
    var x, y := Recast(Put(s, k, m, r, pc), d), Put(Recast(s, d), k, m, r, pc);
    assert |x.consumers| == |y.consumers| && forall i | 0 <= i < |x.consumers| :: x.consumers[i] == y.consumers[i];
    assert x.consumers == y.consumers;
  }

  /** No delivery number ever exceeds the cap: the over-delivery branch is out of reach. */
  lemma NeverOverDelivered(c: Config, s: State, k: nat, m: nat)
    requires Inv(c, s) && k < |s.consumers| && Rec(s.consumers[k], m).handled < Rec(s.consumers[k], m).delivered
    ensures Rec(s.consumers[k], m).handled + 1 <= s.consumers[k].spec.maxDeliver
  {
    var x := s.consumers[k];
    assert ConsumerOk(x, k, s.log, s.seen);
    assert RecordOk(x.spec.maxDeliver, Rec(x, m), x.pc, m, k, s.log, s.seen);
  }

  /** Recasting changes no position and no record. */
  lemma RecastKeeps(s: State, d: Config)
    requires |s.consumers| == |d.specs|
    ensures |Recast(s, d).consumers| == |s.consumers|
    ensures forall k, m: nat | 0 <= k < |s.consumers| :: Rec(Recast(s, d).consumers[k], m) == Rec(s.consumers[k], m)
    ensures forall k | 0 <= k < |s.consumers| :: Recast(s, d).consumers[k].pc == s.consumers[k].pc
    ensures AllIdle(Recast(s, d).consumers) == AllIdle(s.consumers)
  {
    assert AllIdle(Recast(s, d).consumers) ==> forall k | 0 <= k < |s.consumers| :: Recast(s, d).consumers[k].pc.Idle?;
  }

  /** Two results agree: both waited, or the second is the first recast. */
  predicate Agree(d: Config, t: Option<State>, u: Option<State>) {
    match t
    case None => u.None?
    case Some(t') => |t'.consumers| == |d.specs| && u == Some(Recast(t', d))
  }

  lemma RecastDeliver(c: Config, d: Config, s: State, k: nat, m: nat)
    requires Inv(c, s) && SameButVersions(c, d)
    ensures Agree(d, Step(c, s, Deliver(k, m)), Step(d, Recast(s, d), Deliver(k, m)))
  {
    RecastKeeps(s, d);
    if k < |s.consumers| {
      var r := Rec(s.consumers[k], m);
      RecastPut(s, d, k, m, r.(delivered := r.delivered + 1), s.consumers[k].pc);
    }
  }

  lemma RecastBegin(c: Config, d: Config, s: State, k: nat, m: nat, arrives: bool)
    requires Inv(c, s) && SameButVersions(c, d)
    ensures Agree(d, BeginStep(c, s, k, m, arrives), BeginStep(d, Recast(s, d), k, m, arrives))
  {
    RecastKeeps(s, d);
    var t := BeginStep(c, s, k, m, arrives);
    if t.Some? {
      NeverOverDelivered(c, s, k, m);
      RecastPut(s, d, k, m, Rec(t.value.consumers[k], m), t.value.consumers[k].pc);
    }
  }

  lemma RecastSendReturns(c: Config, d: Config, s: State, k: nat, ok: bool)
    requires Inv(c, s) && SameButVersions(c, d)
    ensures Agree(d, SendReturnsStep(s, k, ok), SendReturnsStep(Recast(s, d), k, ok))
  {
    RecastKeeps(s, d);
    var t := SendReturnsStep(s, k, ok);
    if t.Some? {
      var m := s.consumers[k].pc.m;
      RecastPut(s, d, k, m, Rec(t.value.consumers[k], m), t.value.consumers[k].pc);
    }
  }

  lemma RecastConclude(c: Config, d: Config, s: State, k: nat, arrives: bool)
    requires Inv(c, s) && SameButVersions(c, d)
    ensures Agree(d, ConcludeStep(s, k, arrives), ConcludeStep(Recast(s, d), k, arrives))
  {
    RecastKeeps(s, d);
    var t := ConcludeStep(s, k, arrives);
    if t.Some? {
      var m := s.consumers[k].pc.m;
      RecastPut(s, d, k, m, Rec(t.value.consumers[k], m), t.value.consumers[k].pc);
    }
  }

  /** So a step does the same whichever versions the consumers run. */
  lemma VersionsTakeTheSameStep(c: Config, d: Config, s: State, a: Action)
    requires Inv(c, s) && SameButVersions(c, d)
    ensures Agree(d, Step(c, s, a), Step(d, Recast(s, d), a))
  {
    match a
    case Deliver(k, m) => RecastDeliver(c, d, s, k, m);
    case Begin(k, m, arrives) => RecastBegin(c, d, s, k, m, arrives);
    case SendReturns(k, ok) => RecastSendReturns(c, d, s, k, ok);
    case Conclude(k, arrives) => RecastConclude(c, d, s, k, arrives);
    case _ =>
  }

  /** Whichever versions of the handler the consumers run, the runs are the same. */
  lemma {:induction false} VersionsAgree(c: Config, d: Config, s: State, schedule: seq<Action>)
    requires Inv(c, s) && SameButVersions(c, d)
    ensures Agree(d, Replay(c, s, schedule), Replay(d, Recast(s, d), schedule))
    decreases schedule
  {
    if schedule != [] {
      VersionsTakeTheSameStep(c, d, s, schedule[0]);
      if Step(c, s, schedule[0]).Some? {
        StepInv(c, s, schedule[0]);
        VersionsAgree(c, d, Step(c, s, schedule[0]).value, schedule[1..]);
      }
    }
  }

  // ----- redelivery ends -----

  /**
   Dead letters are stored by the same stream, whose wildcard covers their subject, but no consumer's
   filter lets one through; and no message is handled more often than its consumer's cap.
   */
  lemma DeadLettersDoNotFeedBack(c: Config, schedule: seq<Action>, s: State)
    requires Capped(c) && Reaches(c, schedule, s)
    ensures |s.consumers| == |c.specs|
    ensures forall k, i | 0 <= k < |s.consumers| && 0 <= i < |s.log| && SubjectOf(s.log[i]) == DLQ ::
              Matches(ALL, SubjectOf(s.log[i])) && Rec(s.consumers[k], i) == FRESH
    ensures forall k, m: nat | 0 <= k < |s.consumers| ::
              Rec(s.consumers[k], m).handled <= Rec(s.consumers[k], m).delivered <= c.specs[k].maxDeliver
    ensures forall k, m: nat | 0 <= k < |s.consumers| && Rec(s.consumers[k], m).deadAt.Some? ::
              Rec(s.consumers[k], m).deadAt.value < |s.log| && s.log[Rec(s.consumers[k], m).deadAt.value].Dead?
  {
    ReachableInv(c, schedule, s);
    forall k, m: nat | 0 <= k < |s.consumers|
      ensures RecordOk(c.specs[k].maxDeliver, Rec(s.consumers[k], m), s.consumers[k].pc, m, k, s.log, s.seen)
    {
      assert ConsumerOk(s.consumers[k], k, s.log, s.seen);
    }
    forall i | 0 <= i < |s.log| && SubjectOf(s.log[i]) == DLQ
      ensures s.log[i].Dead? && Matches(ALL, SubjectOf(s.log[i]))
    {
      SubjectsMatch(s.log[i]);
      assert "dlq"[0] != "created"[0];
      assert CREATED[2] != DLQ[2];
    }
  }

  predicate IsPublish(a: Action) {
    a.Publish? || a.PublishGarbage?
  }

  /** Nothing is in progress: every created message is settled or used up, and every delivery handled. */
  predicate Quiet(s: State) {
    && AllIdle(s.consumers)
    && forall k, m | 0 <= k < |s.consumers| && 0 <= m < |s.log| && s.log[m].Created? ::
         Rec(s.consumers[k], m).handled == Rec(s.consumers[k], m).delivered && Finished(s, k, m)
  }

  lemma BusyCanStep(c: Config, s: State, k: nat) returns (a: Action)
    requires Inv(c, s) && k < |s.consumers| && !s.consumers[k].pc.Idle?
    ensures Step(c, s, a).Some? && !IsPublish(a)
  {
    assert ConsumerOk(s.consumers[k], k, s.log, s.seen);
    a := if s.consumers[k].pc.Calling? then SendReturns(k, true) else Conclude(k, true);
  }

  lemma UnfinishedCanStep(c: Config, s: State, k: nat, m: nat) returns (a: Action)
    requires Inv(c, s) && AllIdle(s.consumers)
    requires k < |s.consumers| && m < |s.log| && s.log[m].Created?
    requires Rec(s.consumers[k], m).handled != Rec(s.consumers[k], m).delivered || !Finished(s, k, m)
    ensures Step(c, s, a).Some? && !IsPublish(a)
  {
    var x := s.consumers[k];
    assert ConsumerOk(x, k, s.log, s.seen);
    assert RecordOk(x.spec.maxDeliver, Rec(x, m), x.pc, m, k, s.log, s.seen);
    a := if Rec(x, m).handled < Rec(x, m).delivered then Begin(k, m, true) else Deliver(k, m);
  }

  lemma QuietCannotStep(c: Config, s: State, a: Action)
    requires Inv(c, s) && Quiet(s) && !IsPublish(a)
    ensures Step(c, s, a).None?
  {
    if a.Begin? && a.k < |s.consumers| {
      var x := s.consumers[a.k];
      assert ConsumerOk(x, a.k, s.log, s.seen);
      assert RecordOk(x.spec.maxDeliver, Rec(x, a.m), x.pc, a.m, a.k, s.log, s.seen);
    }
  }

  /** Without further publishes the protocol can always move until it is quiet. */
  lemma StuckIffQuiet(c: Config, schedule: seq<Action>, s: State)
    requires Capped(c) && Reaches(c, schedule, s)
    ensures (forall a :: Step(c, s, a).Some? ==> IsPublish(a)) <==> Quiet(s)
  {
    ReachableInv(c, schedule, s);
    if Quiet(s) {
      forall a | !IsPublish(a) ensures Step(c, s, a).None? {
        QuietCannotStep(c, s, a);
      }
    } else if k :| 0 <= k < |s.consumers| && !s.consumers[k].pc.Idle? {
      var a := BusyCanStep(c, s, k);
    } else {
      var k, m :| 0 <= k < |s.consumers| && 0 <= m < |s.log| && s.log[m].Created?
        && !(Rec(s.consumers[k], m).handled == Rec(s.consumers[k], m).delivered && Finished(s, k, m));
      var a := UnfinishedCanStep(c, s, k, m);
    }
  }

  /** Steps one consumer can still take over one created message. */
  function MessageWork(cap: nat, r: Record): nat {
    if r.handled <= r.delivered <= cap then 4 * (cap - r.delivered) + 3 * (r.delivered - r.handled) else 0
  }

  function Backlog(x: Consumer, log: seq<Stored>): nat {
    if log == [] then 0
    else Backlog(x, log[..|log| - 1])
         + if log[|log| - 1].Created? then MessageWork(x.spec.maxDeliver, Rec(x, |log| - 1)) else 0
  }

  function PcWork(pc: Pc): nat {
    match pc case Idle => 0 case Calling(_, _) => 2 case _ => 1
  }

  function Work(log: seq<Stored>): Consumer -> nat {
    (x: Consumer) => Backlog(x, log) + PcWork(x.pc)
  }

  function Measure(s: State): nat {
    Total(s.consumers, Work(s.log))
  }

  lemma {:induction false} BacklogUpdate(x: Consumer, log: seq<Stored>, m: nat, r: Record, pc: Pc)
    requires m < |log| && log[m].Created?
    ensures Backlog(Consumer(x.spec, x.records[m := r], pc), log) + MessageWork(x.spec.maxDeliver, Rec(x, m))
         == Backlog(x, log) + MessageWork(x.spec.maxDeliver, r)
  {
    var y := Consumer(x.spec, x.records[m := r], pc);
    if m < |log| - 1 {
      BacklogUpdate(x, log[..|log| - 1], m, r, pc);
    } else {
      BacklogElsewhere(x, log[..|log| - 1], m, r, pc);
    }
  }

  lemma {:induction false} BacklogElsewhere(x: Consumer, log: seq<Stored>, m: nat, r: Record, pc: Pc)
    requires |log| <= m
    ensures Backlog(Consumer(x.spec, x.records[m := r], pc), log) == Backlog(x, log)
  {
    if log != [] {
      BacklogElsewhere(x, log[..|log| - 1], m, r, pc);
    }
  }

  lemma {:induction false} TotalShift(xs: seq<Consumer>, before: Consumer -> nat, after: Consumer -> nat,
                                      extra: Consumer -> nat)
    requires forall i | 0 <= i < |xs| :: after(xs[i]) == before(xs[i]) + extra(xs[i])
    ensures Total(xs, after) == Total(xs, before) + Total(xs, extra)
  {
    if xs != [] {
      TotalShift(xs[1..], before, after, extra);
    }
  }

  predicate NoneBeyond(consumers: seq<Consumer>, m: nat) {
    forall k | 0 <= k < |consumers| :: Rec(consumers[k], m) == FRESH
  }

  lemma NoRecordBeyondTheLog(c: Config, s: State)
    requires Inv(c, s)
    ensures NoneBeyond(s.consumers, |s.log|)
  {
    forall k | 0 <= k < |s.consumers|
      ensures Rec(s.consumers[k], |s.log|) == FRESH
    {
      var x, m := s.consumers[k], |s.log|;
      assert ConsumerOk(x, k, s.log, s.seen);
      assert RecordOk(x.spec.maxDeliver, Rec(x, m), x.pc, m, k, s.log, s.seen);
    }
  }

  function Cost(x: Consumer): nat {
    4 * x.spec.maxDeliver
  }

  /** A new message adds four steps a delivery for each consumer when it is .created, and none when it is dead. */
  lemma AppendWork(consumers: seq<Consumer>, log: seq<Stored>, x: Stored)
    requires NoneBeyond(consumers, |log|)
    ensures Total(consumers, Work(log + [x]))
         == Total(consumers, Work(log)) + if x.Created? then Total(consumers, Cost) else 0
  {
    var nothing := (y: Consumer) => 0;
    forall k | 0 <= k < |consumers|
      ensures Work(log + [x])(consumers[k]) == Work(log)(consumers[k]) + if x.Created? then Cost(consumers[k]) else 0
    {
      assert (log + [x])[..|log|] == log;
    }
    TotalShift(consumers, Work(log), Work(log + [x]), if x.Created? then Cost else nothing);
    TotalUniform(consumers, nothing, 0);
  }

  function PublishCost(c: Config): nat {
    Total(Init(c).consumers, Cost)
  }

  lemma {:induction false} CostFollowsSpecs(xs: seq<Consumer>, ys: seq<Consumer>)
    requires |xs| == |ys| && forall k | 0 <= k < |xs| :: xs[k].spec == ys[k].spec
    ensures Total(xs, Cost) == Total(ys, Cost)
  {
    if xs != [] {
      CostFollowsSpecs(xs[1..], ys[1..]);
    }
  }

  lemma ConsumerStepLowers(c: Config, s: State, a: Action, k: nat, m: nat)
    requires Inv(c, s) && !IsPublish(a) && Step(c, s, a).Some?
    requires k == a.k && k < |s.consumers|
    requires m == if a.Deliver? || a.Begin? then a.m else if s.consumers[k].pc.Idle? then 0 else s.consumers[k].pc.m
    ensures var t := Step(c, s, a).value;
            && m < |s.log| && s.log[m].Created?
            && |t.consumers| == |s.consumers| && t.consumers == s.consumers[k := t.consumers[k]]
            && (t.log == s.log || t.log == s.log + [Dead(s.log[m].p, k, m)])
            && var x, y := s.consumers[k], t.consumers[k];
               && y == Consumer(x.spec, x.records[m := Rec(y, m)], y.pc)
               && MessageWork(x.spec.maxDeliver, Rec(y, m)) + PcWork(y.pc)
                  < MessageWork(x.spec.maxDeliver, Rec(x, m)) + PcWork(x.pc)
  {
    var x, t := s.consumers[k], Step(c, s, a).value;
    assert ConsumerOk(x, k, s.log, s.seen);
    assert RecordOk(x.spec.maxDeliver, Rec(x, m), x.pc, m, k, s.log, s.seen);
    match a
    case Deliver(_, _) => DeliverMoves(c, s, t, k, m);
    case Begin(_, _, arrives) => BeginMoves(c, s, t, k, m, arrives);
    case SendReturns(_, ok) => SendReturnsMoves(c, s, t, k, ok);
    case Conclude(_, arrives) => ConcludeMoves(c, s, t, k, arrives);
  }

  lemma PublishAddsWork(c: Config, s: State, a: Action)
    requires Inv(c, s) && IsPublish(a)
    ensures Measure(Step(c, s, a).value) <= Measure(s) + PublishCost(c)
  {
    NoRecordBeyondTheLog(c, s);
    CostFollowsSpecs(s.consumers, Init(c).consumers);
    AppendWork(s.consumers, s.log, Created(if a.Publish? then Parsed(a.e) else Garbage));
  }

  /** What consumer `k` has left falls when its work on `m` does. */
  lemma MessageStepLowers(s: State, t: State, k: nat, m: nat)
    requires k < |s.consumers| == |t.consumers| && t.consumers == s.consumers[k := t.consumers[k]]
    requires m < |s.log| && s.log[m].Created?
    requires var x, y := s.consumers[k], t.consumers[k];
             && y == Consumer(x.spec, x.records[m := Rec(y, m)], y.pc)
             && MessageWork(x.spec.maxDeliver, Rec(y, m)) + PcWork(y.pc)
                < MessageWork(x.spec.maxDeliver, Rec(x, m)) + PcWork(x.pc)
    ensures Total(t.consumers, Work(s.log)) < Total(s.consumers, Work(s.log))
  {
    BacklogUpdate(s.consumers[k], s.log, m, Rec(t.consumers[k], m), t.consumers[k].pc);
    TotalUpdate(s.consumers, k, t.consumers[k], Work(s.log));
  }

  lemma HandlerStepLowersMeasure(c: Config, s: State, a: Action, k: nat, m: nat)
    requires Inv(c, s) && !IsPublish(a) && Step(c, s, a).Some? && k == a.k && k < |s.consumers|
    requires m == if a.Deliver? || a.Begin? then a.m else if s.consumers[k].pc.Idle? then 0 else s.consumers[k].pc.m
    ensures Measure(Step(c, s, a).value) < Measure(s)
  {
    var t := Step(c, s, a).value;
    ConsumerStepLowers(c, s, a, k, m);
    MessageStepLowers(s, t, k, m);
    NoRecordBeyondTheLog(c, s);
    AppendWork(t.consumers, s.log, Dead(s.log[m].p, k, m));
  }

  lemma StepLowersMeasure(c: Config, s: State, a: Action)
    requires Inv(c, s) && Step(c, s, a).Some?
    ensures Measure(Step(c, s, a).value) + (if IsPublish(a) then 0 else 1)
            <= Measure(s) + if IsPublish(a) then PublishCost(c) else 0
  {
    if IsPublish(a) {
      PublishAddsWork(c, s, a);
    } else {
      var k: nat := a.k;
      HandlerStepLowersMeasure(c, s, a, k,
        if a.Deliver? || a.Begin? then a.m else if s.consumers[k].pc.Idle? then 0 else s.consumers[k].pc.m);
    }
  }

  function Publishes(schedule: seq<Action>): nat {
    if schedule == [] then 0 else (if IsPublish(schedule[0]) then 1 else 0) + Publishes(schedule[1..])
  }

  lemma {:induction false} ReplayBounded(c: Config, s: State, schedule: seq<Action>)
    requires Inv(c, s) && Replay(c, s, schedule).Some?
    ensures |schedule| <= Measure(s) + Times(PublishCost(c) + 1, Publishes(schedule))
    decreases schedule
  {
    if schedule != [] {
      StepLowersMeasure(c, s, schedule[0]);
      StepInv(c, s, schedule[0]);
      ReplayBounded(c, Step(c, s, schedule[0]).value, schedule[1..]);
    }
  }

  /** Deliveries all consumers together can make of one message. */
  function Deliveries(specs: seq<Spec>): nat {
    if specs == [] then 0 else specs[0].maxDeliver + Deliveries(specs[1..])
  }

  lemma {:induction false} CostOfDeliveries(xs: seq<Consumer>, specs: seq<Spec>)
    requires |xs| == |specs| && forall k | 0 <= k < |xs| :: xs[k].spec == specs[k]
    ensures Total(xs, Cost) == 4 * Deliveries(specs)
  {
    if xs != [] {
      CostOfDeliveries(xs[1..], specs[1..]);
    }
  }

  lemma NothingToDoAtFirst(c: Config)
    ensures Measure(Init(c)) == 0
  {
    TotalUniform(Init(c).consumers, Work([]), 0);
  }

  /** Redelivery terminates: each publish allows four steps a delivery for every consumer, dead letters none. */
  lemma EveryRunIsFinite(c: Config, schedule: seq<Action>)
    requires Capped(c) && Replay(c, Init(c), schedule).Some?
    ensures |schedule| <= (4 * Deliveries(c.specs) + 1) * Publishes(schedule)
  {
    InitInv(c);
    ReplayBounded(c, Init(c), schedule);
    NothingToDoAtFirst(c);
    var cost := PublishCost(c) + 1;
    CostOfDeliveries(Init(c).consumers, c.specs);
    assert cost == 4 * Deliveries(c.specs) + 1;
    TimesIsProduct(cost, Publishes(schedule));
  }
}
