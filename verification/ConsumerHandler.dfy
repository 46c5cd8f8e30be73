/** The consumer's `handle` and its dedup store as objects updated in place, in both versions. */
module ConsumerHandler {
  import opened Prelude
  import opened Stream

  datatype Reply = Ack | Nak | Term

  /** What one run of `handle` does. */
  datatype Effect = Effect(calls: bool, marks: bool, parks: bool, reply: Reply)

  /**
   The outcome of one run: `delivered` is NumDelivered, or None when the metadata is missing, and
   `sendOk` is how `send` ends if it is called.
   */
  function Outcome(version: Version, maxDeliver: int, seen: set<string>, p: Payload,
                   delivered: Option<nat>, sendOk: bool): Effect
  {
    if p.Garbage? then Effect(false, false, false, Term)
    else if version.M09? && delivered.Some? && delivered.value > maxDeliver then Effect(false, false, true, Term)
    else if p.e.id in seen then Effect(false, false, false, Ack)
    else if sendOk then Effect(true, true, false, Ack)
    else if delivered.Some? && delivered.value >= maxDeliver then Effect(true, false, true, Term)
    else Effect(true, false, false, Nak)
  }

  /** A run marks only what it just sent, and never marks and parks the same delivery. */
  lemma MarksOnlyWhatItSent(version: Version, maxDeliver: int, seen: set<string>, p: Payload,
                            delivered: Option<nat>, sendOk: bool)
    ensures var eff := Outcome(version, maxDeliver, seen, p, delivered, sendOk);
            && (eff.marks <==> eff.calls && sendOk)
            && (eff.calls ==> p.Parsed? && p.e.id !in seen)
            && (eff.parks ==> eff.reply.Term? && !eff.marks)
            && (eff.reply.Ack? <==> p.Parsed? && (eff.marks || (p.e.id in seen && !eff.parks)))
  {
  }

  class DedupStore {
    var seen: set<string>

    constructor ()
      ensures seen == {}
    {
      seen := {};
    }

    method Seen(id: string) returns (ok: bool)
      ensures ok == (id in seen)
    {
      ok := id in seen;
    }

    method Mark(id: string)
      modifies this
      ensures seen == old(seen) + {id}
    {
      seen := seen + {id};
    }
  }

  /** The stream server as its publishers see it. */
  class Server {
    var log: seq<Stored>
    var ids: set<string>

    constructor ()
      ensures log == [] && ids == {}
    {
      log, ids := [], {};
    }

    /** Publishes with the event ID as MsgID: a repeated ID is acknowledged but not stored again. */
    method PublishCreated(e: Event)
      modifies this
      ensures ids == old(ids) + {e.id}
      ensures log == if e.id in old(ids) then old(log) else old(log) + [Created(Parsed(e))]
    {
      if e.id !in ids {
        log := log + [Created(Parsed(e))];
        ids := ids + {e.id};
      }
    }

    method PublishDead(p: Payload, who: nat, of: nat)
      modifies this
      ensures ids == old(ids) && log == old(log) + [Dead(p, who, of)]
    {
      log := log + [Dead(p, who, of)];
    }
  }

  /** One durable consumer; `send` is the function the dispatcher side provides. */
  class Handler {
    const version: Version
    const maxDeliver: int
    const me: nat
    const js: Server
    const dedup: DedupStore

    constructor (version: Version, maxDeliver: int, me: nat, js: Server, dedup: DedupStore)
      ensures this.version == version && this.maxDeliver == maxDeliver && this.me == me
      ensures this.js == js && this.dedup == dedup
    {
      this.version, this.maxDeliver, this.me, this.js, this.dedup := version, maxDeliver, me, js, dedup;
    }

    /** The first version's extra check, on a delivery number the stream should not produce. */
    predicate Beyond(delivered: Option<nat>) {
      version == M09 && delivered.Some? && delivered.value > maxDeliver
    }

    /** Handles one delivery of the message stored at `of`. */
    method Handle(p: Payload, of: nat, delivered: Option<nat>, send: Event -> bool) returns (reply: Reply)
      modifies js, dedup
      ensures var eff := Outcome(version, maxDeliver, old(dedup.seen), p, delivered, p.Parsed? && send(p.e));
              && reply == eff.reply
              && dedup.seen == (if eff.marks then old(dedup.seen) + {p.e.id} else old(dedup.seen))
              && js.log == (if eff.parks then old(js.log) + [Dead(p, me, of)] else old(js.log))
      ensures js.ids == old(js.ids)
      // bytes that do not parse: terminated
      ensures p.Garbage? ==> reply == Term && dedup.seen == old(dedup.seen) && js.log == old(js.log)
      // a delivery beyond the cap, in the first version: dead-lettered
      ensures p.Parsed? && Beyond(delivered) ==>
                reply == Term && dedup.seen == old(dedup.seen) && js.log == old(js.log) + [Dead(p, me, of)]
      // an event sent before: only acknowledged
      ensures p.Parsed? && !Beyond(delivered) && p.e.id in old(dedup.seen) ==>
                reply == Ack && dedup.seen == old(dedup.seen) && js.log == old(js.log)
      // a send that succeeds: marked and acknowledged
      ensures p.Parsed? && !Beyond(delivered) && p.e.id !in old(dedup.seen) && send(p.e) ==>
                reply == Ack && dedup.seen == old(dedup.seen) + {p.e.id} && js.log == old(js.log)
      // a send that fails on the last delivery: dead-lettered; on an earlier one: to be redelivered
      ensures p.Parsed? && !Beyond(delivered) && p.e.id !in old(dedup.seen) && !send(p.e) ==>
                && dedup.seen == old(dedup.seen)
                && if delivered.Some? && delivered.value >= maxDeliver
                   then reply == Term && js.log == old(js.log) + [Dead(p, me, of)]
                   else reply == Nak && js.log == old(js.log)
    {
      if p.Garbage? {
        return Term;
      }
      if version.M09? && delivered.Some? && delivered.value > maxDeliver {
        js.PublishDead(p, me, of);
        return Term;
      }
      var duplicate := dedup.Seen(p.e.id);
      if duplicate {
        return Ack;
      }
      if !send(p.e) {
        if delivered.Some? && delivered.value >= maxDeliver {
          js.PublishDead(p, me, of);
          return Term;
        }
        return Nak;
      }
      dedup.Mark(p.e.id);
      return Ack;
    }
  }

  function Settles(reply: Reply): Settled {
    match reply case Ack => Acked case Term => Terminated case Nak => Open
  }

  /** The schedule of one uninterrupted run of the handler. */
  function RunOf(calls: bool, k: nat, m: nat, sendOk: bool, arrives: bool): seq<Action> {
    if calls then [Begin(k, m, arrives), SendReturns(k, sendOk), Conclude(k, arrives)] else [Begin(k, m, arrives)]
  }

  /** What one run of `handle` does to the server, the dedup store and the consumer's account of `m`. */
  predicate TakesEffect(s: State, t: State, k: nat, m: nat, eff: Effect, arrives: bool)
    requires k < |s.consumers| && m < |s.log|
  {
    var was, p := Rec(s.consumers[k], m), s.log[m].p;
    && AllIdle(t.consumers) && |t.consumers| == |s.consumers|
    && (eff.marks ==> p.Parsed?)
    && t.seen == (if eff.marks then s.seen + {p.e.id} else s.seen)
    && t.log == (if eff.parks then s.log + [Dead(p, k, m)] else s.log)
    && Rec(t.consumers[k], m).settled == (if arrives && was.settled.Open? then Settles(eff.reply) else was.settled)
    && Rec(t.consumers[k], m).handled == was.handled + 1
  }

  /** What the next run of consumer `k` on message `m` does, by `handle` on the delivery's number. */
  function NextOutcome(s: State, k: nat, m: nat, sendOk: bool): Effect
    requires k < |s.consumers| && m < |s.log|
  {
    var x := s.consumers[k];
    Outcome(x.spec.version, x.spec.maxDeliver, s.seen, s.log[m].p, Some(Rec(x, m).handled + 1), sendOk)
  }

  /** The checks either answer the delivery or leave the handler inside send. */
  lemma ChecksAreHandle(c: Config, s: State, t: State, k: nat, m: nat, sendOk: bool, arrives: bool)
    requires Inv(c, s) && AllIdle(s.consumers) && k < |s.consumers| && m < |s.log|
    requires Step(c, s, Begin(k, m, arrives)) == Some(t)
    ensures var eff, was := NextOutcome(s, k, m, sendOk), Rec(s.consumers[k], m);
            if eff.calls then
              s.log[m].p.Parsed? && t == Put(s, k, m, was.(handled := was.handled + 1), Calling(m, was.handled + 1))
            else TakesEffect(s, t, k, m, eff, arrives)
  {
    var x := s.consumers[k];
    assert ConsumerOk(x, k, s.log, s.seen);
    assert RecordOk(x.spec.maxDeliver, Rec(x, m), Idle, m, k, s.log, s.seen);
  }

  /** From inside send, the rest of the run. */
  lemma SendIsHandle(c: Config, s: State, t: State, k: nat, m: nat, sendOk: bool, arrives: bool) returns (end: State)
    requires AllIdle(s.consumers) && k < |s.consumers| && m < |s.log| && NextOutcome(s, k, m, sendOk).calls
    requires var was := Rec(s.consumers[k], m);
             t == Put(s, k, m, was.(handled := was.handled + 1), Calling(m, was.handled + 1))
    ensures Replay(c, t, [SendReturns(k, sendOk), Conclude(k, arrives)]) == Some(end)
    ensures TakesEffect(s, end, k, m, NextOutcome(s, k, m, sendOk), arrives)
  {
    var u := SendReturnsStep(t, k, sendOk).value;
    end := ConcludeStep(u, k, arrives).value;
    var rest: seq<Action> := [SendReturns(k, sendOk), Conclude(k, arrives)];
    assert rest[1..] == [Conclude(k, arrives)] && rest[1..][1..] == [];
    assert Replay(c, t, rest) == Replay(c, u, rest[1..]) == Some(end);
  }

  /**
   The protocol's three handler steps, taken without interruption, are one run of `handle` on the
   delivery's number: same marks, same dead letter, same reply, and the server settles the message by it.
   */
  lemma HandlerRunIsHandle(c: Config, s: State, k: nat, m: nat, sendOk: bool, arrives: bool) returns (end: State)
    requires Inv(c, s) && AllIdle(s.consumers) && k < |s.consumers| && m < |s.log|
    requires Rec(s.consumers[k], m).handled < Rec(s.consumers[k], m).delivered
    ensures Replay(c, s, RunOf(NextOutcome(s, k, m, sendOk).calls, k, m, sendOk, arrives)) == Some(end)
    ensures TakesEffect(s, end, k, m, NextOutcome(s, k, m, sendOk), arrives)
  {
    end := Step(c, s, Begin(k, m, arrives)).value;
    var run := RunOf(NextOutcome(s, k, m, sendOk).calls, k, m, sendOk, arrives);
    ChecksAreHandle(c, s, end, k, m, sendOk, arrives);
    if NextOutcome(s, k, m, sendOk).calls {
      var t := end;
      end := SendIsHandle(c, s, t, k, m, sendOk, arrives);
      assert run[1..] == [SendReturns(k, sendOk), Conclude(k, arrives)];
      assert Replay(c, s, run) == Replay(c, t, run[1..]);
    } else {
      assert run[1..] == [];
      assert Replay(c, s, run) == Replay(c, end, run[1..]);
    }
  }
}
