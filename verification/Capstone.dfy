/**
 The vertical slice: POST /v1/customers validates, stores and publishes; consumers send welcomes.
 Requests run concurrently: each validates, stores under the lock, hands its event to the publisher
 after releasing it, and answers 201 whether or not the message ever reaches the stream.
 */
module Capstone {
  import opened Prelude
  import opened Text
  import Stream
  import StreamResults
  import ConsumerHandler

  datatype Customer = Customer(id: string, email: string, name: string, createdAt: int)

  datatype Request = Request(email: string, name: string)

  /** HTTP status of the answer, and the customer it carries when one was created. */
  datatype Response = BadRequest | CreatedCustomer(c: Customer)

  function EventOf(c: Customer): Stream.Event {
    Stream.Event(c.id, c.email, c.name, c.createdAt)
  }

  predicate Accepts(body: Option<Request>) {
    body.Some? && ValidCustomer(body.value.email, body.value.name)
  }

  function CustomerOf(body: Request, id: string, now: int): Customer {
    Customer(id, body.email, body.name, now)
  }

  // ----- the handler -----

  /** What one request alone does to the map, the server's MsgIDs and its log. */
  function Served(byID: map<string, Customer>, ids: set<string>, log: seq<Stream.Stored>,
                  body: Option<Request>, id: string, now: int, reaches: bool)
    : (Response, map<string, Customer>, set<string>, seq<Stream.Stored>)
  {
    if !Accepts(body) then (BadRequest, byID, ids, log)
    else
      var c := CustomerOf(body.value, id, now);
      (CreatedCustomer(c), byID[id := c],
       if reaches then ids + {id} else ids,
       if reaches && id !in ids then log + [Stream.Created(Stream.Parsed(EventOf(c)))] else log)
  }

  class Api {
    var byID: map<string, Customer>
    const js: ConsumerHandler.Server

    constructor (js: ConsumerHandler.Server)
      ensures byID == map[] && this.js == js
    {
      byID := map[];
      this.js := js;
    }

    /**
     `body` is None when the JSON does not parse; `id` and `now` come from randHex and the clock;
     `reaches` says whether the publish reaches the server.
     */
    method Create(body: Option<Request>, id: string, now: int, reaches: bool) returns (r: Response)
      modifies this, js
      ensures r.BadRequest? <==> body.None? || !('@' in body.value.email) || Blank(body.value.name)
      ensures r.BadRequest? ==> byID == old(byID) && js.ids == old(js.ids) && js.log == old(js.log)
      ensures r.CreatedCustomer? ==>
                && r.c.id == id && r.c.email == body.value.email && r.c.name == body.value.name && r.c.createdAt == now
                && byID == old(byID)[id := r.c]
                && js.ids == (if reaches then old(js.ids) + {id} else old(js.ids))
                && js.log == if reaches && id !in old(js.ids) then
                               old(js.log) + [Stream.Created(Stream.Parsed(
                                 Stream.Event(id, body.value.email, body.value.name, now)))]
                             else old(js.log)
      ensures (r, byID, js.ids, js.log) == Served(old(byID), old(js.ids), old(js.log), body, id, now, reaches)
    {
      if body.None? {
        return BadRequest;
      }
      var req := body.value;
      TrimmedEmptyIffBlank(req.name);
      if !ContainsAt(req.email) || TrimSpace(req.name) == "" {
        return BadRequest;
      }
      var c := Customer(id, req.email, req.name, now);
      byID := byID[id := c];
      if reaches {
        js.PublishCreated(EventOf(c));
      }
      return CreatedCustomer(c);
    }
  }

  // ----- the whole slice over time -----

  /** Where an accepted request is, and what became of its message. */
  datatype Position = Checked | Stored | Publishing | Answered

  datatype Message = Unsent | Flying | Landed

  datatype Call = Call(cust: Customer, pos: Position, message: Message)

  datatype State = State(
    byID: map<string, Customer>,
    calls: seq<Call>,                 // the accepted requests, in order of arrival
    stream: Stream.State)

  datatype Action =
    | Arrive(body: Option<Request>, id: string, now: int)    // decode and validate
    | Store(r: nat)                                          // h.byID[c.ID] = c under the lock
    | Publish(r: nat)                                        // the publisher sends the message
    | Land(r: nat)                                           // the message reaches the server
    | Answer(r: nat)                                         // 201, landed or not
    | Inner(a: Stream.Action)                                // deliveries and handler runs

  function Init(c: Stream.Config): State {
    State(map[], [], Stream.Init(c))
  }

  function Step(c: Stream.Config, s: State, a: Action): Option<State> {
    match a
    case Arrive(body, id, now) =>
      if Accepts(body) then Some(s.(calls := s.calls + [Call(CustomerOf(body.value, id, now), Checked, Unsent)]))
      else Some(s)
    case Store(r) =>
      if r < |s.calls| && s.calls[r].pos.Checked? then
        Some(s.(byID := s.byID[s.calls[r].cust.id := s.calls[r].cust],
                calls := s.calls[r := s.calls[r].(pos := Stored)]))
      else None
    case Publish(r) =>
      if r < |s.calls| && s.calls[r].pos.Stored? then
        Some(s.(calls := s.calls[r := s.calls[r].(pos := Publishing, message := Flying)]))
      else None
    case Land(r) =>
      if r < |s.calls| && s.calls[r].message.Flying? then
        match Stream.Step(c, s.stream, Stream.Publish(EventOf(s.calls[r].cust)))
        case None => None
        case Some(t) => Some(s.(calls := s.calls[r := s.calls[r].(message := Landed)], stream := t))
      else None
    case Answer(r) =>
      if r < |s.calls| && s.calls[r].pos.Publishing? then
        Some(s.(calls := s.calls[r := s.calls[r].(pos := Answered)]))
      else None
    case Inner(b) =>
      if StreamResults.IsPublish(b) then None
      else match Stream.Step(c, s.stream, b)
           case None => None
           case Some(t) => Some(s.(stream := t))
  }

  function Replay(c: Stream.Config, s: State, schedule: seq<Action>): Option<State>
    decreases schedule
  {
    if schedule == [] then Some(s)
    else match Step(c, s, schedule[0])
         case None => None
         case Some(t) => Replay(c, t, schedule[1..])
  }

  predicate Reaches(c: Stream.Config, schedule: seq<Action>, s: State) {
    Replay(c, Init(c), schedule) == Some(s)
  }

  /** IDs of customers that were sent a welcome. */
  function Welcomed(s: State): set<string> {
    set id | id in s.stream.sends && s.stream.sends[id] != []
  }

  function Published(s: State): set<string> {
    s.stream.ids
  }

  function StoredIds(s: State): set<string> {
    s.byID.Keys
  }

  // ----- the invariant -----

  /** A request sends its message only after it has stored its customer. */
  predicate CallOk(x: Call, byID: map<string, Customer>) {
    && ValidCustomer(x.cust.email, x.cust.name)
    && (!x.pos.Checked? ==> x.cust.id in byID)
    && (x.message.Unsent? <==> x.pos.Checked? || x.pos.Stored?)
  }

  /** Some request has stored a customer of that ID. */
  predicate StoredBy(calls: seq<Call>, id: string) {
    exists r | 0 <= r < |calls| :: !calls[r].pos.Checked? && calls[r].cust.id == id
  }

  /** The message of some request with that ID has reached the server. */
  predicate LandedBy(calls: seq<Call>, id: string) {
    exists r | 0 <= r < |calls| :: calls[r].message.Landed? && calls[r].cust.id == id
  }

  /** The message that reached the server was that of some request. */
  predicate EventBy(calls: seq<Call>, e: Stream.Event) {
    exists r | 0 <= r < |calls| :: calls[r].message.Landed? && EventOf(calls[r].cust) == e
  }

  /** Every stored ID goes back to a request. */
  predicate StoreTraced(calls: seq<Call>, byID: map<string, Customer>) {
    && (forall r | 0 <= r < |calls| :: CallOk(calls[r], byID))
    && (forall id | id in byID :: StoredBy(calls, id))
  }

  /** Every MsgID and every stored event goes back to a request whose message landed. */
  predicate EventsTraced(calls: seq<Call>, ids: set<string>, log: seq<Stream.Stored>) {
    && (forall r | 0 <= r < |calls| && calls[r].message.Landed? :: calls[r].cust.id in ids)
    && (forall id | id in ids :: LandedBy(calls, id))
    && (forall i | 0 <= i < |log| && Stream.IsEvent(log[i]) :: EventBy(calls, log[i].p.e))
  }

  predicate Traced(s: State) {
    StoreTraced(s.calls, s.byID) && EventsTraced(s.calls, s.stream.ids, s.stream.log)
  }

  ghost predicate Inv(c: Stream.Config, s: State) {
    Stream.Inv(c, s.stream) && Traced(s)
  }

  /** Requests only go on: what was stored or has landed stays so. */
  predicate GoesOn(calls: seq<Call>, more: seq<Call>) {
    && |calls| <= |more|
    && forall r | 0 <= r < |calls| ::
         && more[r].cust == calls[r].cust
         && (!calls[r].pos.Checked? ==> !more[r].pos.Checked?)
         && (calls[r].message.Landed? ==> more[r].message.Landed?)
  }

  lemma TracesStay(calls: seq<Call>, more: seq<Call>)
    requires GoesOn(calls, more)
    ensures forall id :: StoredBy(calls, id) ==> StoredBy(more, id)
    ensures forall id :: LandedBy(calls, id) ==> LandedBy(more, id)
    ensures forall e :: EventBy(calls, e) ==> EventBy(more, e)
  {
  }

  /** Handler steps store no events: only dead letters are appended, and the MsgID table stays. */
  lemma HandlersStoreNoEvents(c: Stream.Config, s: Stream.State, a: Stream.Action)
    requires Stream.Inv(c, s) && Stream.Step(c, s, a).Some? && !StreamResults.IsPublish(a)
    ensures var t := Stream.Step(c, s, a).value;
            && t.ids == s.ids && s.log <= t.log
            && forall i | |s.log| <= i < |t.log| :: t.log[i].Dead?
  {
  }

  /** A step of the request side that leaves the stream alone. */
  predicate OfRequest(a: Action) {
    a.Arrive? || a.Store? || a.Publish? || a.Answer?
  }

  lemma RequestCalls(c: Stream.Config, s: State, a: Action, x: nat)
    requires (forall r | 0 <= r < |s.calls| :: CallOk(s.calls[r], s.byID)) && Step(c, s, a).Some? && OfRequest(a)
    requires x < |Step(c, s, a).value.calls|
    ensures CallOk(Step(c, s, a).value.calls[x], Step(c, s, a).value.byID)
  {
    if x < |s.calls| {
      assert CallOk(s.calls[x], s.byID);
    }
  }

  lemma RequestGoesOn(c: Stream.Config, s: State, a: Action)
    requires (forall r | 0 <= r < |s.calls| :: CallOk(s.calls[r], s.byID)) && Step(c, s, a).Some? && OfRequest(a)
    ensures var t := Step(c, s, a).value;
            && t.stream == s.stream && GoesOn(s.calls, t.calls)
            && forall r | 0 <= r < |t.calls| && t.calls[r].message.Landed? ::
                 r < |s.calls| && s.calls[r].message.Landed?
  {
    assert a.Publish? ==> CallOk(s.calls[a.r], s.byID);
  }

  lemma StoreTraces(s: State, t: State, c: Stream.Config, r: nat)
    requires Step(c, s, Store(r)) == Some(t)
    ensures StoredBy(t.calls, s.calls[r].cust.id) && t.byID.Keys == s.byID.Keys + {s.calls[r].cust.id}
  {
    assert !t.calls[r].pos.Checked? && t.calls[r].cust.id == s.calls[r].cust.id;
  }

  lemma RequestTraced(c: Stream.Config, s: State, a: Action)
    requires Traced(s) && Step(c, s, a).Some? && OfRequest(a)
    ensures Traced(Step(c, s, a).value) && Step(c, s, a).value.stream == s.stream
  {
    var t := Step(c, s, a).value;
    RequestGoesOn(c, s, a);
    TracesStay(s.calls, t.calls);
    forall r | 0 <= r < |t.calls|
      ensures CallOk(t.calls[r], t.byID)
    {
      RequestCalls(c, s, a, r);
    }
    if a.Store? {
      StoreTraces(s, t, c, a.r);
    }
  }

  /** A publish adds its ID, and its event unless the ID was there. */
  lemma PublishAdds(c: Stream.Config, s: Stream.State, e: Stream.Event)
    ensures var t := Stream.Step(c, s, Stream.Publish(e));
            && t.Some? && t.value.ids == s.ids + {e.id}
            && t.value.log == (if e.id in s.ids then s.log else s.log + [Stream.Created(Stream.Parsed(e))])
            && (t.value.consumers, t.value.seen, t.value.sends) == (s.consumers, s.seen, s.sends)
  {
  }

  /** What a landing message changes. */
  predicate Lands(s: State, t: State, r: nat) {
    && r < |s.calls| && s.calls[r].message.Flying?
    && t.byID == s.byID && t.calls == s.calls[r := s.calls[r].(message := Landed)]
    && var e := EventOf(s.calls[r].cust);
       && t.stream.ids == s.stream.ids + {e.id}
       && (t.stream.log == s.stream.log || t.stream.log == s.stream.log + [Stream.Created(Stream.Parsed(e))])
  }

  lemma LandStep(c: Stream.Config, s: State, t: State, r: nat)
    requires Step(c, s, Land(r)) == Some(t)
    ensures Lands(s, t, r)
  {
    PublishAdds(c, s.stream, EventOf(s.calls[r].cust));
  }

  lemma LandGoesOn(s: State, t: State, r: nat)
    requires StoreTraced(s.calls, s.byID) && Lands(s, t, r)
    ensures GoesOn(s.calls, t.calls) && StoreTraced(t.calls, t.byID)
    ensures EventBy(t.calls, EventOf(s.calls[r].cust)) && LandedBy(t.calls, s.calls[r].cust.id)
    ensures forall x | 0 <= x < |t.calls| && t.calls[x].message.Landed? ::
              t.calls[x].cust == s.calls[x].cust && (x == r || s.calls[x].message.Landed?)
  {
    assert t.calls[r].message.Landed? && EventOf(t.calls[r].cust) == EventOf(s.calls[r].cust);
    assert CallOk(s.calls[r], s.byID);
    TracesStay(s.calls, t.calls);
  }

  lemma EventsStayTraced(calls: seq<Call>, ids: set<string>, log: seq<Stream.Stored>, e: Stream.Event,
                         calls': seq<Call>, ids': set<string>, log': seq<Stream.Stored>)
    requires EventsTraced(calls, ids, log) && GoesOn(calls, calls')
    requires EventBy(calls', e) && LandedBy(calls', e.id) && ids' == ids + {e.id}
    requires log' == log || log' == log + [Stream.Created(Stream.Parsed(e))]
    requires forall x | 0 <= x < |calls'| && calls'[x].message.Landed? :: calls'[x].cust.id in ids'
    ensures EventsTraced(calls', ids', log')
  {
    TracesStay(calls, calls');
    forall i | 0 <= i < |log'| && Stream.IsEvent(log'[i])
      ensures EventBy(calls', log'[i].p.e)
    {
      if i < |log| {
        assert log'[i] == log[i];
      }
    }
  }

  lemma LandTraced(s: State, t: State, r: nat)
    requires Traced(s) && Lands(s, t, r)
    ensures Traced(t)
  {
    LandGoesOn(s, t, r);
    EventsStayTraced(s.calls, s.stream.ids, s.stream.log, EventOf(s.calls[r].cust),
                     t.calls, t.stream.ids, t.stream.log);
  }

  lemma InnerTraced(c: Stream.Config, s: State, t: State, a: Stream.Action)
    requires Inv(c, s) && Step(c, s, Inner(a)) == Some(t)
    ensures Traced(t) && t.calls == s.calls
  {
    HandlersStoreNoEvents(c, s.stream, a);
    forall i | 0 <= i < |t.stream.log| && Stream.IsEvent(t.stream.log[i])
      ensures EventBy(t.calls, t.stream.log[i].p.e)
    {
      assert i < |s.stream.log| && t.stream.log[i] == s.stream.log[i];
    }
  }

  lemma StepInv(c: Stream.Config, s: State, a: Action)
    requires Inv(c, s) && Step(c, s, a).Some?
    ensures Inv(c, Step(c, s, a).value)
  {
    match a
    case Land(r) =>
      LandStep(c, s, Step(c, s, a).value, r);
      LandTraced(s, Step(c, s, a).value, r);
      StreamResults.StepInv(c, s.stream, Stream.Publish(EventOf(s.calls[r].cust)));
    case Inner(b) =>
      InnerTraced(c, s, Step(c, s, a).value, b);
      StreamResults.StepInv(c, s.stream, b);
    case _ => RequestTraced(c, s, a);
  }

  lemma {:induction false} ReplayInv(c: Stream.Config, s: State, schedule: seq<Action>)
    requires Inv(c, s) && Replay(c, s, schedule).Some?
    ensures Inv(c, Replay(c, s, schedule).value)
    decreases schedule
  {
    if schedule != [] {
      StepInv(c, s, schedule[0]);
      ReplayInv(c, Step(c, s, schedule[0]).value, schedule[1..]);
    }
  }

  lemma ReachableInv(c: Stream.Config, schedule: seq<Action>, s: State)
    requires Stream.Capped(c) && Reaches(c, schedule, s)
    ensures Inv(c, s)
  {
    Stream.InitInv(c);
    ReplayInv(c, Init(c), schedule);
  }

  // ----- what the slice promises -----

  /**
   In every reachable state of concurrent requests, whoever was welcomed was published, and whoever was
   published was stored: a message leaves a request only after its store.
   */
  lemma Provenance(c: Stream.Config, schedule: seq<Action>, s: State)
    requires Stream.Capped(c) && Reaches(c, schedule, s)
    ensures Welcomed(s) <= Published(s) <= StoredIds(s)
  {
    ReachableInv(c, schedule, s);
    forall id | id in Welcomed(s)
      ensures id in Published(s)
    {
      assert Stream.SentOk(s.stream, id, s.stream.sends[id][0]);
    }
    forall id | id in Published(s)
      ensures id in StoredIds(s)
    {
      var r :| 0 <= r < |s.calls| && s.calls[r].message.Landed? && s.calls[r].cust.id == id;
      assert CallOk(s.calls[r], s.byID);
    }
  }

  /**
   The stored IDs are those of the accepted requests that got as far as storing, and the published ones
   those whose message landed. So a rejected request adds to neither set, and one whose publish fails
   adds to the first only.
   */
  lemma SetsAreThoseOfTheRequests(c: Stream.Config, schedule: seq<Action>, s: State)
    requires Stream.Capped(c) && Reaches(c, schedule, s)
    ensures forall id :: id in StoredIds(s) <==> StoredBy(s.calls, id)
    ensures forall id :: id in Published(s) <==> LandedBy(s.calls, id)
    ensures forall r | 0 <= r < |s.calls| && s.calls[r].pos.Answered? :: s.calls[r].cust.id in StoredIds(s)
  {
    ReachableInv(c, schedule, s);
    forall id | StoredBy(s.calls, id)
      ensures id in StoredIds(s)
    {
      var r :| 0 <= r < |s.calls| && !s.calls[r].pos.Checked? && s.calls[r].cust.id == id;
      assert CallOk(s.calls[r], s.byID);
    }
    forall r | 0 <= r < |s.calls| && s.calls[r].pos.Answered?
      ensures s.calls[r].cust.id in StoredIds(s)
    {
      assert CallOk(s.calls[r], s.byID);
    }
  }

  lemma {:induction false} CallsArrive(c: Stream.Config, s: State, schedule: seq<Action>, t: State, r: nat)
    requires Replay(c, s, schedule) == Some(t) && r < |t.calls|
    ensures var x := t.calls[r].cust;
            if r < |s.calls| then x == s.calls[r].cust
            else Arrive(Some(Request(x.email, x.name)), x.id, x.createdAt) in schedule
    ensures |s.calls| <= |t.calls|
    decreases schedule
  {
    if schedule != [] {
      var u := Step(c, s, schedule[0]).value;
      CallsArrive(c, u, schedule[1..], t, r);
      assert schedule == [schedule[0]] + schedule[1..];
    }
  }

  /**
   Every welcome goes to the email and name of a valid request that arrived with that ID and time, and is
   already stored: the event sent carries the request's own fields.
   */
  lemma WelcomesAreAcceptedRequests(c: Stream.Config, schedule: seq<Action>, s: State, id: string, i: nat)
    returns (r: nat)
    requires Stream.Capped(c) && Reaches(c, schedule, s)
    requires id in s.stream.sends && i < |s.stream.sends[id]|
    ensures r < |s.calls| && s.calls[r].cust.id == id && id in s.byID
    ensures '@' in s.calls[r].cust.email && !Blank(s.calls[r].cust.name)
    ensures var m := s.stream.sends[id][i].of;
            && m < |s.stream.log| && Stream.IsEvent(s.stream.log[m])
            && var e, cust := s.stream.log[m].p.e, s.calls[r].cust;
               && e.id == cust.id == id && e.email == cust.email && e.name == cust.name
               && e.occurredAt == cust.createdAt
               && Arrive(Some(Request(e.email, e.name)), id, e.occurredAt) in schedule
  {
    ReachableInv(c, schedule, s);
    assert Stream.SentOk(s.stream, id, s.stream.sends[id][i]);
    var e := s.stream.log[s.stream.sends[id][i].of].p.e;
    assert EventBy(s.calls, e);
    r :| 0 <= r < |s.calls| && s.calls[r].message.Landed? && EventOf(s.calls[r].cust) == e;
    assert CallOk(s.calls[r], s.byID);
    TrimmedEmptyIffBlank(s.calls[r].cust.name);
    CallsArrive(c, Init(c), schedule, s, r);
  }

  /** The stream inside the slice goes through a run of its own. */
  lemma {:induction false} SliceRunsTheStream(c: Stream.Config, s: State, schedule: seq<Action>, t: State)
    returns (inner: seq<Stream.Action>)
    requires Replay(c, s, schedule) == Some(t)
    ensures Stream.Replay(c, s.stream, inner) == Some(t.stream)
    decreases schedule
  {
    if schedule == [] {
      inner := [];
    } else {
      var u := Step(c, s, schedule[0]).value;
      inner := SliceRunsTheStream(c, u, schedule[1..], t);
      if u.stream != s.stream {
        var a := if schedule[0].Inner? then schedule[0].a else Stream.Publish(EventOf(s.calls[schedule[0].r].cust));
        assert ([a] + inner)[1..] == inner;
        inner := [a] + inner;
      }
    }
  }

  /** With exclusive handler runs no customer ID is welcomed twice, even when two requests drew the same ID. */
  lemma WelcomedAtMostOnce(c: Stream.Config, schedule: seq<Action>, s: State, id: string)
    requires Stream.Capped(c) && StreamResults.Exclusive(c) && Reaches(c, schedule, s)
    ensures |Stream.SendsOf(s.stream, id)| <= 1
  {
    var inner := SliceRunsTheStream(c, Init(c), schedule, s);
    StreamResults.AtMostOnceIffExclusive(c);
    assert Stream.Reaches(c, inner, s.stream);
  }

  /** The three sets only grow. */
  lemma {:induction false} SetsOnlyGrow(c: Stream.Config, s: State, schedule: seq<Action>, t: State)
    requires Replay(c, s, schedule) == Some(t)
    ensures Welcomed(s) <= Welcomed(t) && Published(s) <= Published(t) && StoredIds(s) <= StoredIds(t)
    decreases schedule
  {
    if schedule != [] {
      var u := Step(c, s, schedule[0]).value;
      assert Welcomed(s) <= Welcomed(u);
      SetsOnlyGrow(c, u, schedule[1..], t);
    }
  }

  // ----- the handler is the slice's request -----

  /** One request's steps without interruption, its message landing before the answer or never. */
  function RunOf(r: nat, body: Option<Request>, id: string, now: int, reaches: bool): seq<Action> {
    if !Accepts(body) then [Arrive(body, id, now)]
    else [Arrive(body, id, now), Store(r), Publish(r)] + (if reaches then [Land(r)] else []) + [Answer(r)]
  }

  /** From a stored customer on: the publish, the landing if it happens, and the answer. */
  lemma PublishAndAnswer(c: Stream.Config, s: State, r: nat, reaches: bool) returns (t: State)
    requires r < |s.calls| && s.calls[r].pos.Stored?
    ensures Replay(c, s, [Publish(r)] + (if reaches then [Land(r)] else []) + [Answer(r)]) == Some(t)
    ensures var e := EventOf(s.calls[r].cust);
            && t.byID == s.byID && r < |t.calls| && t.calls[r].pos.Answered? && t.calls[r].cust == s.calls[r].cust
            && t.stream == (if reaches then Stream.Step(c, s.stream, Stream.Publish(e)).value else s.stream)
  {
    var run := [Publish(r)] + (if reaches then [Land(r)] else []) + [Answer(r)];
    var s1 := Step(c, s, Publish(r)).value;
    var s2 := if reaches then Step(c, s1, Land(r)).value else s1;
    t := Step(c, s2, Answer(r)).value;
    assert Replay(c, s2, [Answer(r)]) == Some(t) by {
      assert [Answer(r)][1..] == [];
    }
    if reaches {
      assert run[1..] == [Land(r), Answer(r)] && [Land(r), Answer(r)][1..] == [Answer(r)];
      assert Replay(c, s1, run[1..]) == Replay(c, s2, [Answer(r)]);
    } else {
      assert run[1..] == [Answer(r)];
    }
  }

  /** A request whose steps are not interrupted does what the handler method does, and leaves the consumers alone. */
  lemma UninterruptedIsServed(c: Stream.Config, s: State, body: Option<Request>, id: string, now: int, reaches: bool)
    returns (t: State)
    ensures Replay(c, s, RunOf(|s.calls|, body, id, now, reaches)) == Some(t)
    ensures var (answer, byID, ids, log) := Served(s.byID, s.stream.ids, s.stream.log, body, id, now, reaches);
            && (t.byID, t.stream.ids, t.stream.log) == (byID, ids, log)
            && (t.stream.consumers, t.stream.seen, t.stream.sends)
               == (s.stream.consumers, s.stream.seen, s.stream.sends)
            && (answer.CreatedCustomer? ==>
                  |t.calls| > |s.calls| && t.calls[|s.calls|].cust == answer.c && t.calls[|s.calls|].pos.Answered?)
  {
    var r, run := |s.calls|, RunOf(|s.calls|, body, id, now, reaches);
    var s1 := Step(c, s, Arrive(body, id, now)).value;
    if !Accepts(body) {
      t := s1;
      assert run[1..] == [];
    } else {
      var s2 := Step(c, s1, Store(r)).value;
      var rest := [Publish(r)] + (if reaches then [Land(r)] else []) + [Answer(r)];
      var cust := CustomerOf(body.value, id, now);
      assert s1.calls[r].cust == s2.calls[r].cust == cust;
      PublishAdds(c, s.stream, EventOf(cust));
      t := PublishAndAnswer(c, s2, r, reaches);
      assert run[1..] == [Store(r)] + rest && run[1..][1..] == rest;
      assert Replay(c, s, run) == Replay(c, s1, run[1..]) == Replay(c, s2, rest);
    }
  }
}
