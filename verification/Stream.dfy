/**
 The at-least-once stream and its idempotent, dead-lettering consumers.

 The server stores what its subject wildcard covers, suppresses repeated MsgIDs and delivers what a
 durable consumer's filter covers to it again and again, at most `maxDeliver` times, until an Ack or
 Term arrives.
 A handler run is three steps (check, send, conclude), so runs of different consumers can
 interleave unless the configuration serialises them. Replies may be lost.
 */
module Stream {
  import opened Prelude

  datatype Event = Event(id: string, email: string, name: string, occurredAt: int)

  /** Message bytes: an event's JSON, or something that does not parse. */
  datatype Payload = Parsed(e: Event) | Garbage

  /** A stored message by subject; a dead letter also records who parked it and what (history). */
  datatype Stored = Created(p: Payload) | Dead(p: Payload, who: nat, of: nat)

  // ----- subjects -----

  /** A subject or a pattern of subjects, token by token. */
  type Subject = seq<string>

  const CREATED: Subject := ["cxm", "customer", "created"]
  const DLQ: Subject := ["cxm", "customer", "dlq"]
  const ALL: Subject := ["cxm", "customer", ">"]

  /** A final `>` stands for one or more tokens; the repository uses no other wildcard. */
  predicate Matches(pattern: Subject, subject: Subject) {
    if pattern == [] then subject == []
    else if pattern == [">"] then subject != []
    else subject != [] && pattern[0] == subject[0] && Matches(pattern[1..], subject[1..])
  }

  /** Without a wildcard a pattern covers itself; with a final one, whatever goes on from the rest. */
  lemma {:induction false} MatchingMeans(head: Subject, subject: Subject)
    requires ">" !in head
    ensures Matches(head, subject) <==> subject == head
    ensures Matches(head + [">"], subject) <==> |subject| > |head| && subject[..|head|] == head
    decreases head
  {
    if head == [] {
      assert head + [">"] == [">"];
    } else {
      assert (head + [">"])[1..] == head[1..] + [">"] && head == [head[0]] + head[1..];
      if subject != [] {
        MatchingMeans(head[1..], subject[1..]);
        assert subject == [subject[0]] + subject[1..];
        assert |subject| > |head| ==> subject[..|head|] == [subject[0]] + subject[1..][..|head| - 1];
      }
    }
  }

  function SubjectOf(x: Stored): Subject {
    if x.Created? then CREATED else DLQ
  }

  /** The stream's wildcard covers events and dead letters; the consumers' filter covers events only. */
  lemma SubjectsMatch(x: Stored)
    ensures SubjectOf(x) == ["cxm", "customer", if x.Created? then "created" else "dlq"]
    ensures Matches(["cxm", "customer", ">"], SubjectOf(x)) && ALL == ["cxm", "customer", ">"]
    ensures Matches(["cxm", "customer", "created"], SubjectOf(x)) <==> x.Created?
    ensures CREATED == ["cxm", "customer", "created"]
  {
    var head: Subject := ["cxm", "customer"];
    assert ">"[0] != "c"[0] && "dlq"[0] != "created"[0];
    assert ">" !in CREATED && head + [">"] == ALL;
    MatchingMeans(head, SubjectOf(x));
    MatchingMeans(CREATED, SubjectOf(x));
    assert DLQ[2] != CREATED[2];
  }

  /** Publishing: a message is stored when the stream's wildcard covers its subject. */
  function Keep(log: seq<Stored>, x: Stored): (kept: seq<Stored>)
    ensures kept == log + [x]
  {
    SubjectsMatch(x);
    if Matches(ALL, SubjectOf(x)) then log + [x] else log
  }

  /** Whether the consumers' filter subject lets a stored message through. */
  predicate Filtered(x: Stored)
    ensures Filtered(x) <==> x.Created?
  {
    SubjectsMatch(x);
    Matches(CREATED, SubjectOf(x))
  }

  // ----- configuration and state -----

  datatype Version = M09 | M14

  /** One durable consumer: which handler it runs, and its delivery cap. */
  datatype Spec = Spec(version: Version, maxDeliver: nat)

  /** `serialised`: handler runs of different consumers on the shared dedup store never overlap. */
  datatype Config = Config(specs: seq<Spec>, serialised: bool)

  /** Every consumer gets at least one delivery. */
  predicate Capped(c: Config) {
    forall k | 0 <= k < |c.specs| :: c.specs[k].maxDeliver >= 1
  }

  datatype Settled = Open | Acked | Terminated

  /** One consumer's dealings with one message. All but `delivered`, `handled` and `settled` is history. */
  datatype Record = Record(
    delivered: nat,          // deliveries made; the latest NumDelivered
    handled: nat,            // deliveries the handler has started on, in order
    fails: nat,              // sends that failed
    sends: nat,              // sends that succeeded
    skipped: nat,            // deliveries answered without calling send
    settled: Settled,        // what reached the server
    deadAt: Option<nat>)     // where its dead letter is stored

  const FRESH := Record(0, 0, 0, 0, 0, Open, None)

  datatype Pc =
    | Idle
    | Calling(m: nat, num: nat)     // passed the checks, inside send
    | Succeeded(m: nat, num: nat)   // send returned nil, about to Mark and Ack
    | Refused(m: nat, num: nat)     // send failed, about to dead-letter or Nak

  datatype Consumer = Consumer(spec: Spec, records: map<nat, Record>, pc: Pc)

  /** A successful send: by which consumer, of which message. */
  datatype Sent = Sent(who: nat, of: nat)

  datatype State = State(
    log: seq<Stored>,
    ids: set<string>,                  // MsgIDs the server has seen
    seen: set<string>,                 // the shared dedup store
    consumers: seq<Consumer>,
    sends: map<string, seq<Sent>>)     // history: successful sends by event ID

  datatype Action =
    | Publish(e: Event)
    | PublishGarbage
    | Deliver(k: nat, m: nat)
    | Begin(k: nat, m: nat, arrives: bool)
    | SendReturns(k: nat, ok: bool)
    | Conclude(k: nat, arrives: bool)

  function Init(c: Config): State {
    State([], {}, {}, seq(|c.specs|, k requires 0 <= k < |c.specs| => Consumer(c.specs[k], map[], Idle)), map[])
  }

  function Rec(x: Consumer, m: nat): Record {
    if m in x.records then x.records[m] else FRESH
  }

  function SendsOf(s: State, id: string): seq<Sent> {
    if id in s.sends then s.sends[id] else []
  }

  function Put(s: State, k: nat, m: nat, r: Record, pc: Pc): State
    requires k < |s.consumers|
  {
    s.(consumers := s.consumers[k := Consumer(s.consumers[k].spec, s.consumers[k].records[m := r], pc)])
  }

  /** A reply takes effect when it arrives and nothing settled the message before. */
  function Settle(r: Record, reply: Settled, arrives: bool): Record {
    if arrives && r.settled.Open? then r.(settled := reply) else r
  }

  predicate AllIdle(consumers: seq<Consumer>) {
    forall k | 0 <= k < |consumers| :: consumers[k].pc.Idle?
  }

  predicate IsEvent(x: Stored) {
    x.Created? && x.p.Parsed?
  }

  function Step(c: Config, s: State, a: Action): Option<State> {
    match a
    case Publish(e) =>
      if e.id in s.ids then Some(s)
      else Some(s.(log := Keep(s.log, Created(Parsed(e))), ids := s.ids + {e.id}))
    case PublishGarbage => Some(s.(log := Keep(s.log, Created(Garbage))))
    case Deliver(k, m) =>
      if k < |s.consumers| && m < |s.log| && Filtered(s.log[m]) then
        var r := Rec(s.consumers[k], m);
        if r.settled.Open? && r.delivered < s.consumers[k].spec.maxDeliver then
          Some(Put(s, k, m, r.(delivered := r.delivered + 1), s.consumers[k].pc))
        else None
      else None
    case Begin(k, m, arrives) => BeginStep(c, s, k, m, arrives)
    case SendReturns(k, ok) => SendReturnsStep(s, k, ok)
    case Conclude(k, arrives) => ConcludeStep(s, k, arrives)
  }

  /** The handler takes its next delivery of message `m`, checks it, and answers it or calls send. */
  function BeginStep(c: Config, s: State, k: nat, m: nat, arrives: bool): Option<State> {
    if k < |s.consumers| && s.consumers[k].pc.Idle? && (c.serialised ==> AllIdle(s.consumers)) && m < |s.log| then
      var x := s.consumers[k];
      var was := Rec(x, m);
      if was.handled >= was.delivered then None
      else
        var num, p := was.handled + 1, s.log[m].p;
        var r := was.(handled := num);
        var skip := r.(skipped := r.skipped + 1);
        if p.Garbage? then
          Some(Put(s, k, m, Settle(skip, Terminated, arrives), Idle))
        else if x.spec.version.M09? && num > x.spec.maxDeliver then
          Some(Put(s, k, m, Settle(skip.(deadAt := Some(|s.log|)), Terminated, arrives), Idle)
               .(log := Keep(s.log, Dead(p, k, m))))
        else if p.e.id in s.seen then
          Some(Put(s, k, m, Settle(skip, Acked, arrives), Idle))
        else
          Some(Put(s, k, m, r, Calling(m, num)))
    else None
  }

  function SendReturnsStep(s: State, k: nat, ok: bool): Option<State> {
    if k < |s.consumers| && s.consumers[k].pc.Calling? && s.consumers[k].pc.m < |s.log|
       && s.log[s.consumers[k].pc.m].p.Parsed? then
      var x := s.consumers[k];
      var m, num := x.pc.m, x.pc.num;
      var r, id := Rec(x, m), s.log[m].p.e.id;
      if ok then
        Some(Put(s, k, m, r.(sends := r.sends + 1), Succeeded(m, num))
             .(sends := s.sends[id := SendsOf(s, id) + [Sent(k, m)]]))
      else
        Some(Put(s, k, m, r.(fails := r.fails + 1), Refused(m, num)))
    else None
  }

  function ConcludeStep(s: State, k: nat, arrives: bool): Option<State> {
    if k < |s.consumers| && (s.consumers[k].pc.Succeeded? || s.consumers[k].pc.Refused?)
       && s.consumers[k].pc.m < |s.log| && s.log[s.consumers[k].pc.m].p.Parsed? then
      var x := s.consumers[k];
      var m, r := x.pc.m, Rec(x, x.pc.m);
      if x.pc.Succeeded? then
        Some(Put(s, k, m, Settle(r, Acked, arrives), Idle).(seen := s.seen + {s.log[m].p.e.id}))
      else if x.pc.num >= x.spec.maxDeliver then
        Some(Put(s, k, m, Settle(r.(deadAt := Some(|s.log|)), Terminated, arrives), Idle)
             .(log := Keep(s.log, Dead(s.log[m].p, k, m))))
      else
        Some(Put(s, k, m, r, Idle))
    else None
  }

  function Replay(c: Config, s: State, schedule: seq<Action>): Option<State>
    decreases schedule
  {
    if schedule == [] then Some(s)
    else match Step(c, s, schedule[0])
         case None => None
         case Some(t) => Replay(c, t, schedule[1..])
  }

  predicate Reaches(c: Config, schedule: seq<Action>, s: State) {
    Replay(c, Init(c), schedule) == Some(s)
  }

  // ----- the invariant -----

  predicate OnMessage(pc: Pc, m: nat) {
    !pc.Idle? && pc.m == m
  }

  /** The MsgID table lists exactly the stored events, each once. */
  predicate LogOk(s: State) {
    && (forall i | 0 <= i < |s.log| && IsEvent(s.log[i]) :: s.log[i].p.e.id in s.ids)
    && (forall i, j | 0 <= i < j < |s.log| && IsEvent(s.log[i]) && IsEvent(s.log[j]) ::
          s.log[i].p.e.id != s.log[j].p.e.id)
    && (forall i | 0 <= i < |s.log| && s.log[i].Dead? ::
          && s.log[i].who < |s.consumers| && s.log[i].of < |s.log|
          && Rec(s.consumers[s.log[i].who], s.log[i].of).deadAt == Some(i))
  }

  /** Consumer `k`'s account of message `m`. */
  predicate RecordOk(cap: nat, r: Record, pc: Pc, m: nat, k: nat, log: seq<Stored>, seen: set<string>) {
    && (r != FRESH ==> m < |log| && log[m].Created?)
    && r.handled <= r.delivered <= cap
    && r.handled == r.fails + r.sends + r.skipped + (if OnMessage(pc, m) && pc.Calling? then 1 else 0)
    && (r.fails + r.sends > 0 ==> IsEvent(log[m]))
    && (r.skipped > 0 && IsEvent(log[m]) ==> log[m].p.e.id in seen)
    && (r.sends > 0 ==> log[m].p.e.id in seen || (OnMessage(pc, m) && pc.Succeeded?))
    && (r.settled.Acked? ==> IsEvent(log[m]) && log[m].p.e.id in seen)
    && (r.settled.Terminated? && IsEvent(log[m]) ==> r.deadAt.Some?)
    && (r.deadAt.Some? <==> r.fails == cap && !(OnMessage(pc, m) && pc.Refused?))
    && (r.deadAt.Some? ==> r.deadAt.value < |log| && log[r.deadAt.value] == Dead(log[m].p, k, m))
  }

  predicate PcOk(x: Consumer, log: seq<Stored>) {
    !x.pc.Idle? ==>
      && x.pc.m < |log| && IsEvent(log[x.pc.m])
      && x.pc.num == Rec(x, x.pc.m).handled > 0
      && (x.pc.Succeeded? ==> Rec(x, x.pc.m).sends > 0)
      && (!x.pc.Succeeded? ==> Rec(x, x.pc.m).sends == 0 && Rec(x, x.pc.m).skipped == 0)
  }

  ghost predicate ConsumerOk(x: Consumer, k: nat, log: seq<Stored>, seen: set<string>) {
    && x.spec.maxDeliver >= 1 && PcOk(x, log)
    && forall m: nat :: RecordOk(x.spec.maxDeliver, Rec(x, m), x.pc, m, k, log, seen)
  }

  /** Every recorded send was made by that consumer, of a message with that ID. */
  predicate SentOk(s: State, id: string, x: Sent) {
    && x.who < |s.consumers| && x.of < |s.log| && IsEvent(s.log[x.of]) && s.log[x.of].p.e.id == id
    && Rec(s.consumers[x.who], x.of).sends > 0
  }

  ghost predicate Inv(c: Config, s: State) {
    && |s.consumers| == |c.specs| && (forall k | 0 <= k < |s.consumers| :: s.consumers[k].spec == c.specs[k])
    && LogOk(s)
    && (forall k | 0 <= k < |s.consumers| :: ConsumerOk(s.consumers[k], k, s.log, s.seen))
    && (forall id | id in s.sends :: forall i | 0 <= i < |s.sends[id]| :: SentOk(s, id, s.sends[id][i]))
    && (forall id | id in s.seen :: SendsOf(s, id) != [])
    && (forall k | 0 <= k < |s.consumers| && s.consumers[k].pc.Succeeded? ::
          SendsOf(s, s.log[s.consumers[k].pc.m].p.e.id) != [])
  }

  lemma InitInv(c: Config)
    requires Capped(c)
    ensures Inv(c, Init(c))
  {
  }

  /** More messages and more seen IDs do not disturb a consumer's account. */
  lemma ConsumerOkFrame(x: Consumer, k: nat, log: seq<Stored>, seen: set<string>,
                        log': seq<Stored>, seen': set<string>)
    requires ConsumerOk(x, k, log, seen) && log <= log' && seen <= seen'
    ensures ConsumerOk(x, k, log', seen')
  {
    forall m: nat
      ensures RecordOk(x.spec.maxDeliver, Rec(x, m), x.pc, m, k, log', seen')
    {
      assert RecordOk(x.spec.maxDeliver, Rec(x, m), x.pc, m, k, log, seen);
    }
  }

  /** A step that touches one message leaves the accounts of all others as they are. */
  lemma ConsumerOkUpdate(x: Consumer, k: nat, log: seq<Stored>, seen: set<string>,
                         m: nat, r: Record, pc: Pc)
    requires ConsumerOk(x, k, log, seen)
    requires pc == x.pc || ((x.pc.Idle? || x.pc.m == m) && (pc.Idle? || pc.m == m))
    requires RecordOk(x.spec.maxDeliver, r, pc, m, k, log, seen) && PcOk(Consumer(x.spec, x.records[m := r], pc), log)
    ensures ConsumerOk(Consumer(x.spec, x.records[m := r], pc), k, log, seen)
  {
    var y := Consumer(x.spec, x.records[m := r], pc);
    forall j: nat
      ensures RecordOk(y.spec.maxDeliver, Rec(y, j), y.pc, j, k, log, seen)
    {
      assert RecordOk(x.spec.maxDeliver, Rec(x, j), x.pc, j, k, log, seen);
    }
  }

  /** The state after consumer `k` changed its record of `m`, the log grew and IDs were marked. */
  lemma ConsumersStep(c: Config, s: State, t: State, k: nat, m: nat, r: Record, pc: Pc)
    requires Inv(c, s) && k < |s.consumers| && s.log <= t.log && s.seen <= t.seen
    requires t.consumers == s.consumers[k := Consumer(s.consumers[k].spec, s.consumers[k].records[m := r], pc)]
    requires pc == s.consumers[k].pc
             || ((s.consumers[k].pc.Idle? || s.consumers[k].pc.m == m) && (pc.Idle? || pc.m == m))
    requires RecordOk(s.consumers[k].spec.maxDeliver, r, pc, m, k, t.log, t.seen)
    requires PcOk(Consumer(s.consumers[k].spec, s.consumers[k].records[m := r], pc), t.log)
    ensures forall j | 0 <= j < |t.consumers| :: ConsumerOk(t.consumers[j], j, t.log, t.seen)
  {
    forall j | 0 <= j < |t.consumers|
      ensures ConsumerOk(t.consumers[j], j, t.log, t.seen)
    {
      ConsumerOkFrame(s.consumers[j], j, s.log, s.seen, t.log, t.seen);
      if j == k {
        ConsumerOkUpdate(s.consumers[k], k, t.log, t.seen, m, r, pc);
      }
    }
  }

  /** The log grew by nothing, or by the dead letter the record now points to. */
  predicate Logged(s: State, t: State, k: nat, m: nat, was: Record, r: Record) {
    || (t.log == s.log && r.deadAt == was.deadAt)
    || (m < |s.log| && t.log == s.log + [Dead(s.log[m].p, k, m)] && was.deadAt.None? && r.deadAt == Some(|s.log|))
  }

  /** The stored messages survive such a change. */
  lemma LogStep(s: State, t: State, k: nat, m: nat, r: Record, pc: Pc)
    requires LogOk(s) && k < |s.consumers| && t.ids == s.ids
    requires t.consumers == s.consumers[k := Consumer(s.consumers[k].spec, s.consumers[k].records[m := r], pc)]
    requires Logged(s, t, k, m, Rec(s.consumers[k], m), r)
    ensures LogOk(t)
  {
  }

  /** And so do the recorded sends. */
  lemma SentStep(s: State, t: State, k: nat, m: nat, r: Record, pc: Pc, id: string, x: Sent)
    requires SentOk(s, id, x) && k < |s.consumers| && s.log <= t.log && r.sends >= Rec(s.consumers[k], m).sends
    requires t.consumers == s.consumers[k := Consumer(s.consumers[k].spec, s.consumers[k].records[m := r], pc)]
    ensures SentOk(t, id, x)
  {
  }

  /** A publish stores nothing, or one created message that is garbage or has a new ID. */
  lemma PublishLog(c: Config, s: State, a: Action)
    requires LogOk(s) && (a.Publish? || a.PublishGarbage?)
    ensures var t := Step(c, s, a).value;
            && LogOk(t) && s.log <= t.log
            && (t.consumers, t.seen, t.sends) == (s.consumers, s.seen, s.sends)
  {
  }

  lemma PublishInv(c: Config, s: State, a: Action)
    requires Inv(c, s) && (a.Publish? || a.PublishGarbage?)
    ensures Inv(c, Step(c, s, a).value)
  {
    var t := Step(c, s, a).value;
    PublishLog(c, s, a);
    forall j | 0 <= j < |t.consumers|
      ensures ConsumerOk(t.consumers[j], j, t.log, t.seen)
    {
      ConsumerOkFrame(s.consumers[j], j, s.log, s.seen, t.log, t.seen);
    }
    forall id, i | id in s.sends && 0 <= i < |s.sends[id]|
      ensures SentOk(t, id, s.sends[id][i])
    {
      assert SentOk(s, id, s.sends[id][i]);
    }
  }

  /** Consumer `k` changed only its record of `m` and its position, and both are in order. */
  predicate Moved(s: State, t: State, k: nat, m: nat) {
    && k < |s.consumers| && k < |t.consumers| && t.ids == s.ids && s.log <= t.log && s.seen <= t.seen
    && var x, y := s.consumers[k], t.consumers[k];
       && t.consumers == s.consumers[k := Consumer(x.spec, x.records[m := Rec(y, m)], y.pc)]
       && (y.pc == x.pc || ((x.pc.Idle? || x.pc.m == m) && (y.pc.Idle? || y.pc.m == m)))
       && RecordOk(x.spec.maxDeliver, Rec(y, m), y.pc, m, k, t.log, t.seen)
       && PcOk(Consumer(x.spec, x.records[m := Rec(y, m)], y.pc), t.log)
       && Rec(y, m).sends >= Rec(x, m).sends
       && Logged(s, t, k, m, Rec(x, m), Rec(y, m))
  }

  lemma MovedInv(c: Config, s: State, t: State, k: nat, m: nat)
    requires Inv(c, s) && Moved(s, t, k, m)
    ensures LogOk(t)
    ensures |t.consumers| == |s.consumers|
    ensures forall j | 0 <= j < |t.consumers| :: ConsumerOk(t.consumers[j], j, t.log, t.seen)
    ensures forall id | id in s.sends :: forall i | 0 <= i < |s.sends[id]| :: SentOk(t, id, s.sends[id][i])
  {
    ConsumersStep(c, s, t, k, m, Rec(t.consumers[k], m), t.consumers[k].pc);
    LogStep(s, t, k, m, Rec(t.consumers[k], m), t.consumers[k].pc);
    forall id, i | id in s.sends && 0 <= i < |s.sends[id]|
      ensures SentOk(t, id, s.sends[id][i])
    {
      SentStep(s, t, k, m, Rec(t.consumers[k], m), t.consumers[k].pc, id, s.sends[id][i]);
    }
  }

  lemma DeliverMoves(c: Config, s: State, t: State, k: nat, m: nat)
    requires Inv(c, s) && Step(c, s, Deliver(k, m)) == Some(t)
    ensures Moved(s, t, k, m) && (t.log, t.seen, t.sends) == (s.log, s.seen, s.sends)
    ensures t.consumers[k].pc == s.consumers[k].pc
  {
    var x := s.consumers[k];
    assert RecordOk(x.spec.maxDeliver, Rec(x, m), x.pc, m, k, s.log, s.seen);
  }

  lemma DeliverInv(c: Config, s: State, k: nat, m: nat)
    requires Inv(c, s) && Step(c, s, Deliver(k, m)).Some?
    ensures Inv(c, Step(c, s, Deliver(k, m)).value)
  {
    var t := Step(c, s, Deliver(k, m)).value;
    DeliverMoves(c, s, t, k, m);
    MovedInv(c, s, t, k, m);
  }

  /** An over-delivered message is out of reach, so the checks store nothing. */
  lemma BeginMoves(c: Config, s: State, t: State, k: nat, m: nat, arrives: bool)
    requires Inv(c, s) && BeginStep(c, s, k, m, arrives) == Some(t)
    ensures Moved(s, t, k, m) && t.log == s.log && t.seen == s.seen && t.sends == s.sends
    ensures !t.consumers[k].pc.Succeeded?
  {
    var x := s.consumers[k];
    assert RecordOk(x.spec.maxDeliver, Rec(x, m), x.pc, m, k, s.log, s.seen);
  }

  lemma BeginInv(c: Config, s: State, k: nat, m: nat, arrives: bool)
    requires Inv(c, s) && BeginStep(c, s, k, m, arrives).Some?
    ensures Inv(c, BeginStep(c, s, k, m, arrives).value)
  {
    var t := BeginStep(c, s, k, m, arrives).value;
    BeginMoves(c, s, t, k, m, arrives);
    MovedInv(c, s, t, k, m);
  }

  lemma SendReturnsMoves(c: Config, s: State, t: State, k: nat, ok: bool)
    requires Inv(c, s) && SendReturnsStep(s, k, ok) == Some(t)
    ensures Moved(s, t, k, s.consumers[k].pc.m)
  {
    var x := s.consumers[k];
    assert RecordOk(x.spec.maxDeliver, Rec(x, x.pc.m), x.pc, x.pc.m, k, s.log, s.seen);
  }

  lemma SendReturnsInv(c: Config, s: State, k: nat, ok: bool)
    requires Inv(c, s) && SendReturnsStep(s, k, ok).Some?
    ensures Inv(c, SendReturnsStep(s, k, ok).value)
  {
    var t := SendReturnsStep(s, k, ok).value;
    SendReturnsMoves(c, s, t, k, ok);
    MovedInv(c, s, t, k, s.consumers[k].pc.m);
  }

  lemma ConcludeMoves(c: Config, s: State, t: State, k: nat, arrives: bool)
    requires Inv(c, s) && ConcludeStep(s, k, arrives) == Some(t)
    ensures Moved(s, t, k, s.consumers[k].pc.m)
    ensures t.sends == s.sends && t.consumers[k].pc.Idle?
    ensures t.seen == if s.consumers[k].pc.Succeeded? then s.seen + {s.log[s.consumers[k].pc.m].p.e.id} else s.seen
  {
    var x := s.consumers[k];
    assert RecordOk(x.spec.maxDeliver, Rec(x, x.pc.m), x.pc, x.pc.m, k, s.log, s.seen);
  }

  lemma ConcludeInv(c: Config, s: State, k: nat, arrives: bool)
    requires Inv(c, s) && ConcludeStep(s, k, arrives).Some?
    ensures Inv(c, ConcludeStep(s, k, arrives).value)
  {
    var t := ConcludeStep(s, k, arrives).value;
    ConcludeMoves(c, s, t, k, arrives);
    MovedInv(c, s, t, k, s.consumers[k].pc.m);
  }
}
