/**
 Transactional enrolment with a denormalised counter: the schema's constraints, the statements of the
 Postgres repository, and any number of its transactions running at READ COMMITTED with row locks.
 */
module Enrolment {
  import opened Prelude

  datatype CustomerRow = CustomerRow(email: string, name: string)

  datatype CampaignRow = CampaignRow(name: string, enrolled: nat)

  /** The committed tables; an enrolment is its primary key (customer, campaign). */
  datatype Db = Db(
    customers: map<string, CustomerRow>,
    campaigns: map<string, CampaignRow>,
    enrolments: set<(string, string)>)

  /** enrolled_count is an INT column. */
  const MAX32: nat := 0x7FFF_FFFF

  /** nil, ErrNotFound, ErrConflict, or any other wrapped error. */
  datatype Result = Ok | NotFound | Conflict | Failed

  // ----- one transaction at a time -----

  /** What EnrollCustomer answers on `db` when no statement fails for another reason. */
  function Verdict(db: Db, cu: string, ca: string): Result {
    if (cu, ca) in db.enrolments then Conflict
    else if cu !in db.customers || ca !in db.campaigns then NotFound
    else if db.campaigns[ca].enrolled >= MAX32 then Failed
    else Ok
  }

  function Enrolled(db: Db, cu: string, ca: string): Db
    requires ca in db.campaigns
  {
    var row := db.campaigns[ca];
    db.(enrolments := db.enrolments + {(cu, ca)}, campaigns := db.campaigns[ca := row.(enrolled := row.enrolled + 1)])
  }

  predicate EmailTaken(db: Db, email: string) {
    exists id | id in db.customers :: db.customers[id].email == email
  }

  /** One committed write. */
  datatype Op =
    | AddCustomer(id: string, email: string, name: string)
    | AddCampaign(id: string, name: string)
    | Enrol(cu: string, ca: string)

  function Answer(db: Db, op: Op): Result {
    match op
    case AddCustomer(id, email, _) => if id in db.customers || EmailTaken(db, email) then Conflict else Ok
    case AddCampaign(id, _) => if id in db.campaigns then Failed else Ok
    case Enrol(cu, ca) => Verdict(db, cu, ca)
  }

  /** The database after the operation ran alone: unchanged unless it succeeds. */
  function Apply(db: Db, op: Op): Db {
    if !Answer(db, op).Ok? then db
    else match op
         case AddCustomer(id, email, name) => db.(customers := db.customers[id := CustomerRow(email, name)])
         case AddCampaign(id, name) => db.(campaigns := db.campaigns[id := CampaignRow(name, 0)])
         case Enrol(cu, ca) => Enrolled(db, cu, ca)
  }

  const EMPTY := Db(map[], map[], {})

  function Serial(ops: seq<Op>): Db {
    if ops == [] then EMPTY else Apply(Serial(ops[..|ops| - 1]), ops[|ops| - 1])
  }

  /** The enrolment rows of one campaign. */
  function RowsOf(db: Db, ca: string): set<(string, string)> {
    set e | e in db.enrolments && e.1 == ca
  }

  ghost predicate Consistent(db: Db) {
    && (forall ca | ca in db.campaigns :: db.campaigns[ca].enrolled == |RowsOf(db, ca)| <= MAX32)
    && (forall e | e in db.enrolments :: e.0 in db.customers && e.1 in db.campaigns)
    && (forall a, b | a in db.customers && b in db.customers && a != b ::
          db.customers[a].email != db.customers[b].email)
  }

  lemma ApplyKeepsConsistent(db: Db, op: Op)
    requires Consistent(db)
    ensures Consistent(Apply(db, op))
  {
    var after := Apply(db, op);
    forall ca | ca in after.campaigns
      ensures after.campaigns[ca].enrolled == |RowsOf(after, ca)| <= MAX32
    {
      if op.Enrol? && op.ca == ca && Answer(db, op).Ok? {
        assert RowsOf(after, ca) == RowsOf(db, ca) + {(op.cu, ca)};
      } else {
        assert RowsOf(after, ca) == RowsOf(db, ca);
        if ca !in db.campaigns {
          assert RowsOf(db, ca) == {};
        }
      }
    }
  }

  lemma {:induction false} SerialIsConsistent(ops: seq<Op>)
    ensures Consistent(Serial(ops))
  {
    if ops != [] {
      SerialIsConsistent(ops[..|ops| - 1]);
      ApplyKeepsConsistent(Serial(ops[..|ops| - 1]), ops[|ops| - 1]);
    }
  }

  // ----- interleaved transactions -----

  /** One connection: nothing open, the row inserted, or the counter's new value written as well. */
  datatype Tx =
    | Closed
    | Inserted(cu: string, ca: string)
    | Bumped(cu: string, ca: string, count: nat)

  datatype State = State(
    db: Db,
    txs: seq<Tx>,
    ops: seq<Op>)       // history: committed writes in commit order

  datatype Action =
    | Insert(t: nat, cu: string, ca: string)
    | Bump(t: nat)
    | Commit(t: nat)
    | Rollback(t: nat)
    | Auto(op: Op)      // Create and CreateCampaign commit on their own

  function Init(connections: nat): State {
    State(EMPTY, seq(connections, _ => Closed), [])
  }

  predicate Touches(tx: Tx, cu: string, ca: string) {
    !tx.Closed? && tx.cu == cu && tx.ca == ca
  }

  /** Another connection holds the key of an uncommitted enrolment. */
  predicate KeyLocked(txs: seq<Tx>, cu: string, ca: string) {
    exists t | 0 <= t < |txs| :: Touches(txs[t], cu, ca)
  }

  /** Another connection has updated the campaign row and not committed. */
  predicate RowLocked(txs: seq<Tx>, ca: string) {
    exists t | 0 <= t < |txs| :: txs[t].Bumped? && txs[t].ca == ca
  }

  /** None when the connection is in another place, or when the statement waits for a lock. */
  function Step(s: State, a: Action): Option<State> {
    match a
    case Insert(t, cu, ca) =>
      if t < |s.txs| && s.txs[t].Closed? && !KeyLocked(s.txs, cu, ca) then
        if (cu, ca) in s.db.enrolments || cu !in s.db.customers || ca !in s.db.campaigns then Some(s)
        else Some(s.(txs := s.txs[t := Inserted(cu, ca)]))
      else None
    case Bump(t) =>
      if t < |s.txs| && s.txs[t].Inserted? && !RowLocked(s.txs, s.txs[t].ca) && s.txs[t].ca in s.db.campaigns then
        var count := s.db.campaigns[s.txs[t].ca].enrolled;
        if count >= MAX32 then Some(s.(txs := s.txs[t := Closed]))
        else Some(s.(txs := s.txs[t := Bumped(s.txs[t].cu, s.txs[t].ca, count + 1)]))
      else None
    case Commit(t) =>
      if t < |s.txs| && s.txs[t].Bumped? && s.txs[t].ca in s.db.campaigns then
        var cu, ca := s.txs[t].cu, s.txs[t].ca;
        var row := s.db.campaigns[ca].(enrolled := s.txs[t].count);
        Some(State(s.db.(enrolments := s.db.enrolments + {(cu, ca)}, campaigns := s.db.campaigns[ca := row]),
                   s.txs[t := Closed], s.ops + [Enrol(cu, ca)]))
      else None
    case Rollback(t) =>
      if t < |s.txs| && !s.txs[t].Closed? then Some(s.(txs := s.txs[t := Closed])) else None
    case Auto(op) =>
      if op.Enrol? then None
      else if Answer(s.db, op).Ok? then Some(s.(db := Apply(s.db, op), ops := s.ops + [op]))
      else Some(s)
  }

  function Replay(s: State, schedule: seq<Action>): Option<State>
    decreases schedule
  {
    if schedule == [] then Some(s)
    else match Step(s, schedule[0])
         case None => None
         case Some(t) => Replay(t, schedule[1..])
  }

  predicate TxOk(db: Db, tx: Tx) {
    !tx.Closed? ==>
      && tx.cu in db.customers && tx.ca in db.campaigns && (tx.cu, tx.ca) !in db.enrolments
      && (tx.Bumped? ==> tx.count == db.campaigns[tx.ca].enrolled + 1 <= MAX32)
  }

  ghost predicate Inv(s: State) {
    && s.db == Serial(s.ops)
    && (forall i | 0 <= i < |s.ops| :: Answer(Serial(s.ops[..i]), s.ops[i]).Ok?)
    && (forall t | 0 <= t < |s.txs| :: TxOk(s.db, s.txs[t]))
    && (forall t, u | 0 <= t < |s.txs| && 0 <= u < |s.txs| && t != u && !s.txs[t].Closed? ::
          && !Touches(s.txs[u], s.txs[t].cu, s.txs[t].ca)
          && !(s.txs[t].Bumped? && s.txs[u].Bumped? && s.txs[u].ca == s.txs[t].ca))
  }

  /** A committed write appends to the serial history. */
  lemma HistoryGrows(s: State, op: Op)
    requires s.db == Serial(s.ops) && Answer(s.db, op).Ok?
    requires forall i | 0 <= i < |s.ops| :: Answer(Serial(s.ops[..i]), s.ops[i]).Ok?
    ensures Apply(s.db, op) == Serial(s.ops + [op])
    ensures forall i | 0 <= i < |s.ops + [op]| :: Answer(Serial((s.ops + [op])[..i]), (s.ops + [op])[i]).Ok?
  {
    var more := s.ops + [op];
    assert more[..|s.ops|] == s.ops;
    forall i | 0 <= i < |more|
      ensures Answer(Serial(more[..i]), more[i]).Ok?
    {
      if i < |s.ops| {
        assert more[..i] == s.ops[..i];
      }
    }
  }

  lemma CommitInv(s: State, t: nat)
    requires Inv(s) && Step(s, Commit(t)).Some?
    ensures Inv(Step(s, Commit(t)).value)
  {
    var r, op := Step(s, Commit(t)).value, Enrol(s.txs[t].cu, s.txs[t].ca);
    assert TxOk(s.db, s.txs[t]);
    assert Apply(s.db, op) == r.db;
    HistoryGrows(s, op);
    forall u | 0 <= u < |r.txs|
      ensures TxOk(r.db, r.txs[u])
    {
      assert TxOk(s.db, s.txs[u]);
    }
  }

  lemma AutoInv(s: State, op: Op)
    requires Inv(s) && Step(s, Auto(op)).Some?
    ensures Inv(Step(s, Auto(op)).value)
  {
    if Answer(s.db, op).Ok? {
      HistoryGrows(s, op);
    }
  }

  lemma InsertInv(s: State, t: nat, cu: string, ca: string)
    requires Inv(s) && Step(s, Insert(t, cu, ca)).Some?
    ensures Inv(Step(s, Insert(t, cu, ca)).value)
  {
  }

  lemma BumpInv(s: State, t: nat)
    requires Inv(s) && Step(s, Bump(t)).Some?
    ensures Inv(Step(s, Bump(t)).value)
  {
    assert TxOk(s.db, s.txs[t]);
  }

  lemma StepInv(s: State, a: Action)
    requires Inv(s) && Step(s, a).Some?
    ensures Inv(Step(s, a).value)
  {
    match a
    case Insert(t, cu, ca) => InsertInv(s, t, cu, ca);
    case Bump(t) => BumpInv(s, t);
    case Commit(t) => CommitInv(s, t);
    case Auto(op) => AutoInv(s, op);
    case Rollback(_) =>
  }

  lemma {:induction false} ReplayInv(s: State, schedule: seq<Action>)
    requires Inv(s) && Replay(s, schedule).Some?
    ensures Inv(Replay(s, schedule).value)
    decreases schedule
  {
    if schedule != [] {
      StepInv(s, schedule[0]);
      ReplayInv(Step(s, schedule[0]).value, schedule[1..]);
    }
  }

  lemma ReachableInv(connections: nat, schedule: seq<Action>, s: State)
    requires Replay(Init(connections), schedule) == Some(s)
    ensures Inv(s)
  {
    ReplayInv(Init(connections), schedule);
  }

  /**
   Serialisability: whatever the interleaving, the committed database is the result of running the
   committed writes one after another in commit order, each of them succeeding on its own.
   */
  lemma InterleavingsAreSerial(connections: nat, schedule: seq<Action>, s: State)
    requires Replay(Init(connections), schedule) == Some(s)
    ensures s.db == Serial(s.ops)
    ensures forall i | 0 <= i < |s.ops| :: Answer(Serial(s.ops[..i]), s.ops[i]).Ok?
  {
    ReachableInv(connections, schedule, s);
  }

  /** In every committed state each counter equals its campaign's rows and no enrolment dangles. */
  lemma CountersNeverDrift(connections: nat, schedule: seq<Action>, s: State)
    requires Replay(Init(connections), schedule) == Some(s)
    ensures forall ca | ca in s.db.campaigns :: s.db.campaigns[ca].enrolled == |RowsOf(s.db, ca)|
    ensures forall e | e in s.db.enrolments :: e.0 in s.db.customers && e.1 in s.db.campaigns
    ensures forall a, b | a in s.db.customers && b in s.db.customers && a != b ::
              s.db.customers[a].email != s.db.customers[b].email
  {
    ReachableInv(connections, schedule, s);
    SerialIsConsistent(s.ops);
  }

  /** A statement, commit or rollback of connection `t`. */
  predicate ActsFor(a: Action, t: nat) {
    !a.Auto? && a.t == t
  }

  /** The schedule without what connection `t` did. */
  function Without(schedule: seq<Action>, t: nat): seq<Action> {
    if schedule == [] then []
    else (if ActsFor(schedule[0], t) then [] else [schedule[0]]) + Without(schedule[1..], t)
  }

  /** The state as if connection `t` had nothing open. */
  function Forgetting(s: State, t: nat): State
    requires t < |s.txs|
  {
    s.(txs := s.txs[t := Closed])
  }

  lemma FewerLocks(s: State, t: nat)
    requires t < |s.txs|
    ensures forall cu, ca :: KeyLocked(Forgetting(s, t).txs, cu, ca) ==> KeyLocked(s.txs, cu, ca)
    ensures forall ca :: RowLocked(Forgetting(s, t).txs, ca) ==> RowLocked(s.txs, ca)
  {
  }

  /** Short of a commit, connection `t` only changes what it has open itself; the others cannot tell. */
  lemma ForgettingStep(s: State, a: Action, t: nat)
    requires t < |s.txs| && Step(s, a).Some? && a != Commit(t)
    ensures t < |Step(s, a).value.txs|
    ensures if ActsFor(a, t) then Forgetting(Step(s, a).value, t) == Forgetting(s, t)
            else Step(Forgetting(s, t), a) == Some(Forgetting(Step(s, a).value, t))
  {
    FewerLocks(s, t);
    if !ActsFor(a, t) && !a.Auto? {
      var y := Step(s, a).value.txs[a.t];
      assert s.txs[t := Closed][a.t := y] == s.txs[a.t := y][t := Closed];
    }
  }

  /**
   A transaction that never commits leaves no trace: the others' schedule runs the same without it, and
   the committed tables and history come out the same.
   */
  lemma {:induction false} AbortedLeavesNoTrace(s: State, schedule: seq<Action>, t: nat, end: State)
    requires t < |s.txs| && Replay(s, schedule) == Some(end)
    requires Commit(t) !in schedule
    ensures t < |end.txs| && Replay(Forgetting(s, t), Without(schedule, t)) == Some(Forgetting(end, t))
    decreases schedule
  {
    if schedule != [] {
      var a, u := schedule[0], Step(s, schedule[0]).value;
      ForgettingStep(s, a, t);
      AbortedLeavesNoTrace(u, schedule[1..], t, end);
      if !ActsFor(a, t) {
        assert Without(schedule, t)[1..] == Without(schedule[1..], t);
      } else {
        assert Without(schedule, t) == Without(schedule[1..], t);
      }
    }
  }

  /**
   A statement waits exactly for another connection's uncommitted row: an insert for the same key, a bump
   for the same campaign's counter. Commit and rollback never wait.
   */
  lemma WaitsAreForRows(s: State, t: nat, cu: string, ca: string)
    requires Inv(s) && t < |s.txs|
    ensures s.txs[t].Closed? ==>
              (Step(s, Insert(t, cu, ca)).None? <==>
               exists u | 0 <= u < |s.txs| :: !s.txs[u].Closed? && s.txs[u].cu == cu && s.txs[u].ca == ca)
    ensures s.txs[t].Inserted? ==>
              (Step(s, Bump(t)).None? <==>
               exists u | 0 <= u < |s.txs| :: s.txs[u].Bumped? && s.txs[u].ca == s.txs[t].ca)
    ensures s.txs[t].Bumped? ==> Step(s, Commit(t)).Some?
    ensures !s.txs[t].Closed? ==> Step(s, Rollback(t)) == Some(s.(txs := s.txs[t := Closed]))
  {
    assert TxOk(s.db, s.txs[t]);
    if u :| 0 <= u < |s.txs| && Touches(s.txs[u], cu, ca) {
      assert KeyLocked(s.txs, cu, ca);
    }
    if s.txs[t].Inserted? {
      if u :| 0 <= u < |s.txs| && s.txs[u].Bumped? && s.txs[u].ca == s.txs[t].ca {
        assert RowLocked(s.txs, s.txs[t].ca);
      }
    }
  }

  /** Open transactions never deadlock: some statement or commit can go ahead without waiting. */
  lemma OpenTransactionsProgress(connections: nat, schedule: seq<Action>, s: State) returns (a: Action)
    requires Replay(Init(connections), schedule) == Some(s)
    requires exists t | 0 <= t < |s.txs| :: !s.txs[t].Closed?
    ensures (a.Bump? || a.Commit?) && Step(s, a).Some?
  {
    ReachableInv(connections, schedule, s);
    if t :| 0 <= t < |s.txs| && s.txs[t].Bumped? {
      assert TxOk(s.db, s.txs[t]);
      a := Commit(t);
    } else {
      var t :| 0 <= t < |s.txs| && !s.txs[t].Closed?;
      assert TxOk(s.db, s.txs[t]);
      a := Bump(t);
    }
  }

  /** The statements EnrollCustomer gets to when it runs alone. */
  function RunOf(verdict: Result, t: nat, cu: string, ca: string): seq<Action> {
    match verdict
    case Ok => [Insert(t, cu, ca), Bump(t), Commit(t)]
    case Failed => [Insert(t, cu, ca), Bump(t)]
    case _ => [Insert(t, cu, ca)]
  }

  /** Run alone, the statements do what the serial operation does. */
  lemma AloneIsSerial(s: State, t: nat, cu: string, ca: string) returns (end: State)
    requires Inv(s) && t < |s.txs| && forall u | 0 <= u < |s.txs| :: s.txs[u].Closed?
    ensures Replay(s, RunOf(Verdict(s.db, cu, ca), t, cu, ca)) == Some(end)
    ensures end.db == Apply(s.db, Enrol(cu, ca)) && end.txs == s.txs
    ensures end.ops == if Verdict(s.db, cu, ca).Ok? then s.ops + [Enrol(cu, ca)] else s.ops
  {
    var run := RunOf(Verdict(s.db, cu, ca), t, cu, ca);
    var s1 := Step(s, Insert(t, cu, ca)).value;
    if s1.txs[t].Closed? {
      end := s1;
      assert run[1..] == [];
    } else {
      var s2 := Step(s1, Bump(t)).value;
      assert run[1..][0] == Bump(t);
      if s2.txs[t].Closed? {
        end := s2;
        assert run[1..][1..] == [];
      } else {
        end := Step(s2, Commit(t)).value;
        assert run[1..][1..] == [Commit(t)] && run[1..][1..][1..] == [];
        assert Replay(s2, run[1..][1..]) == Some(end);
      }
      assert Replay(s, run) == Replay(s1, run[1..]) == Replay(s2, run[1..][1..]);
      assert end.txs == s.txs;
    }
  }

  lemma {:induction false} ReplayConcat(s: State, first: seq<Action>, second: seq<Action>)
    requires Replay(s, first).Some?
    ensures Replay(s, first + second) == Replay(Replay(s, first).value, second)
    decreases first
  {
    if first == [] {
      assert first + second == second;
    } else {
      assert (first + second)[1..] == first[1..] + second;
      ReplayConcat(Step(s, first[0]).value, first[1..], second);
    }
  }

  /** A write that succeeds on the committed tables can be made by an idle connection, or commits on its own. */
  lemma OneMoreWrite(s: State, op: Op) returns (more: seq<Action>, t: State)
    requires Inv(s) && |s.txs| >= 1 && Answer(s.db, op).Ok? && forall u | 0 <= u < |s.txs| :: s.txs[u].Closed?
    ensures Replay(s, more) == Some(t)
    ensures t.db == Apply(s.db, op) && t.ops == s.ops + [op] && t.txs == s.txs
  {
    match op
    case Enrol(cu, ca) =>
      more := RunOf(Verdict(s.db, cu, ca), 0, cu, ca);
      t := AloneIsSerial(s, 0, cu, ca);
    case _ =>
      more := [Auto(op)];
      t := Step(s, Auto(op)).value;
      assert more[1..] == [];
      assert Replay(s, more) == Replay(t, more[1..]);
  }

  /** All of these writes succeed, one after another. */
  ghost predicate Succeeding(ops: seq<Op>) {
    forall i | 0 <= i < |ops| :: Answer(Serial(ops[..i]), ops[i]).Ok?
  }

  lemma SucceedingFront(ops: seq<Op>)
    requires Succeeding(ops) && ops != []
    ensures Succeeding(ops[..|ops| - 1]) && Answer(Serial(ops[..|ops| - 1]), ops[|ops| - 1]).Ok?
  {
    var before := ops[..|ops| - 1];
    assert forall i | 0 <= i < |before| :: before[..i] == ops[..i];
  }

  /** A run that ends with all connections idle and this history. */
  ghost predicate Happened(connections: nat, ops: seq<Op>, schedule: seq<Action>, s: State) {
    && Replay(Init(connections), schedule) == Some(s)
    && s.ops == ops && s.db == Serial(ops) && s.txs == Init(connections).txs
  }

  lemma OneMoreHappens(connections: nat, ops: seq<Op>, op: Op, schedule: seq<Action>, t: State)
    returns (longer: seq<Action>, s: State)
    requires connections >= 1 && Happened(connections, ops, schedule, t) && Answer(Serial(ops), op).Ok?
    ensures Happened(connections, ops + [op], longer, s)
  {
    ReachableInv(connections, schedule, t);
    var more;
    more, s := OneMoreWrite(t, op);
    ReplayConcat(Init(connections), schedule, more);
    longer := schedule + more;
    assert (ops + [op])[..|ops|] == ops;
  }

  /**
   The converse of serialisability: every sequence of writes that succeed one after another is the
   history of some run.
   */
  lemma {:induction false} EverySerialHistoryHappens(connections: nat, ops: seq<Op>)
    returns (schedule: seq<Action>, s: State)
    requires connections >= 1 && Succeeding(ops)
    ensures Happened(connections, ops, schedule, s)
  {
    if ops == [] {
      schedule, s := [], Init(connections);
    } else {
      SucceedingFront(ops);
      var before, t := EverySerialHistoryHappens(connections, ops[..|ops| - 1]);
      assert ops == ops[..|ops| - 1] + [ops[|ops| - 1]];
      schedule, s := OneMoreHappens(connections, ops[..|ops| - 1], ops[|ops| - 1], before, t);
    }
  }

  // ----- the repository's methods -----

  /** Where a call fails for a reason outside the schema. */
  datatype Fault = NoFault | OnBegin | OnInsert | OnBump | OnCommit

  class PostgresRepo {
    var customers: map<string, CustomerRow>
    var campaigns: map<string, CampaignRow>
    var enrolments: set<(string, string)>

    ghost function View(): Db
      reads this
    {
      Db(customers, campaigns, enrolments)
    }

    constructor ()
      ensures View() == EMPTY
    {
      customers, campaigns, enrolments := map[], map[], {};
    }

    /** Create: the UNIQUE and PRIMARY KEY violations become ErrConflict. */
    method Create(id: string, email: string, name: string) returns (r: Result)
      modifies this
      ensures r == if id in old(customers)
                      || exists other | other in old(customers) :: old(customers)[other].email == email
                   then Conflict else Ok
      ensures customers == if r.Ok? then old(customers)[id := CustomerRow(email, name)] else old(customers)
      ensures campaigns == old(campaigns) && enrolments == old(enrolments)
      ensures r == Answer(old(View()), AddCustomer(id, email, name))
      ensures View() == Apply(old(View()), AddCustomer(id, email, name))
    {
      if id in customers || exists other | other in customers :: customers[other].email == email {
        return Conflict;
      }
      customers := customers[id := CustomerRow(email, name)];
      return Ok;
    }

    method CreateCampaign(id: string, name: string) returns (r: Result)
      modifies this
      ensures r == if id in old(campaigns) then Failed else Ok
      ensures campaigns == if r.Ok? then old(campaigns)[id := CampaignRow(name, 0)] else old(campaigns)
      ensures customers == old(customers) && enrolments == old(enrolments)
      ensures r == Answer(old(View()), AddCampaign(id, name))
      ensures View() == Apply(old(View()), AddCampaign(id, name))
    {
      if id in campaigns {
        return Failed;
      }
      campaigns := campaigns[id := CampaignRow(name, 0)];
      return Ok;
    }

    /** The first statement, inside the transaction. */
    method InsertEnrolment(cu: string, ca: string) returns (r: Result)
      modifies this
      ensures r.Ok? <==> (cu, ca) !in old(enrolments) && cu in customers && ca in campaigns
      ensures r.Conflict? <==> (cu, ca) in old(enrolments)
      ensures r.Ok? || r.Conflict? || r.NotFound?
      ensures customers == old(customers) && campaigns == old(campaigns)
      ensures enrolments == if r.Ok? then old(enrolments) + {(cu, ca)} else old(enrolments)
    {
      if (cu, ca) in enrolments {
        return Conflict;
      }
      if cu !in customers || ca !in campaigns {
        return NotFound;
      }
      enrolments := enrolments + {(cu, ca)};
      return Ok;
    }

    /** The second statement: an update of no row is not an error. */
    method BumpCount(ca: string) returns (r: Result)
      modifies this
      ensures customers == old(customers) && enrolments == old(enrolments)
      ensures r == if ca in old(campaigns) && old(campaigns)[ca].enrolled >= 2147483647 then Failed else Ok
      ensures campaigns == if ca in old(campaigns) && r.Ok?
                           then old(campaigns)[ca := old(campaigns)[ca].(enrolled := old(campaigns)[ca].enrolled + 1)]
                           else old(campaigns)
    {
      if ca !in campaigns {
        return Ok;
      }
      if campaigns[ca].enrolled >= MAX32 {
        return Failed;
      }
      campaigns := campaigns[ca := campaigns[ca].(enrolled := campaigns[ca].enrolled + 1)];
      return Ok;
    }

    /** The deferred Rollback. */
    method Restore(c: map<string, CustomerRow>, g: map<string, CampaignRow>, e: set<(string, string)>)
      modifies this
      ensures View() == Db(c, g, e)
    {
      customers, campaigns, enrolments := c, g, e;
    }

    /** EnrollCustomer inside inTx: both statements or neither. */
    method EnrollCustomer(cu: string, ca: string, fault: Fault) returns (r: Result)
      modifies this
      ensures fault.OnBegin? || fault.OnInsert? ==> r == Failed
      ensures !fault.OnBegin? && !fault.OnInsert? ==>
                r == if (cu, ca) in old(enrolments) then Conflict
                     else if cu !in old(customers) || ca !in old(campaigns) then NotFound
                     else if !fault.NoFault? || old(campaigns)[ca].enrolled >= 2147483647 then Failed
                     else Ok
      ensures r.Ok? ==>
                && customers == old(customers) && enrolments == old(enrolments) + {(cu, ca)}
                && var row := old(campaigns)[ca];
                   campaigns == old(campaigns)[ca := CampaignRow(row.name, row.enrolled + 1)]
      ensures fault.NoFault? ==> r == Verdict(old(View()), cu, ca)
      ensures View() == if r.Ok? then Apply(old(View()), Enrol(cu, ca)) else old(View())
    {
      if fault.OnBegin? {
        return Failed;
      }
      var c, g, e := customers, campaigns, enrolments;
      if fault.OnInsert? {
        Restore(c, g, e);
        return Failed;
      }
      r := InsertEnrolment(cu, ca);
      if r.Ok? {
        if fault.OnBump? {
          r := Failed;
        } else {
          r := BumpCount(ca);
        }
      }
      if r.Ok? && fault.OnCommit? {
        r := Failed;
      }
      if !r.Ok? {
        Restore(c, g, e);
      }
    }
  }
}
