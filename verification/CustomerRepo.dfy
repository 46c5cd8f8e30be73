/** The in-memory repository of the `pulse` service: sequence-numbered IDs over a hand-written decimal printer. */
module CustomerRepo {
  import opened Prelude
  import opened Text

  // ----- itoa -----

  function Digit(d: nat): (ch: char)
    requires d < 10
    ensures ch == "0123456789"[d]
  {
    ('0' as int + d) as char
  }

  function Value(ch: char): int {
    ch as int - '0' as int
  }

  predicate IsDigit(ch: char) {
    '0' <= ch <= '9'
  }

  /** The decimal numeral of `n`. */
  function Decimal(n: nat): string {
    if n < 10 then [Digit(n)] else Decimal(n / 10) + [Digit(n % 10)]
  }

  function Parse(s: string): int {
    if s == "" then 0 else 10 * Parse(s[..|s| - 1]) + Value(s[|s| - 1])
  }

  /** Digits only, no leading zero unless the numeral is "0". */
  predicate Canonical(s: string) {
    s != "" && (forall i | 0 <= i < |s| :: IsDigit(s[i])) && (s[0] == '0' ==> |s| == 1)
  }

  lemma {:induction false} DecimalParses(n: nat)
    ensures Parse(Decimal(n)) == n
    ensures Canonical(Decimal(n))
    ensures n > 0 ==> Decimal(n)[0] != '0'
  {
    if n < 10 {
      assert Parse(Decimal(n)) == 10 * Parse("") + Value(Digit(n));
    } else {
      DecimalParses(n / 10);
      assert Decimal(n)[..|Decimal(n)| - 1] == Decimal(n / 10);
    }
  }

  lemma {:induction false} ParsePrints(s: string)
    requires Canonical(s)
    ensures Parse(s) >= 0 && Decimal(Parse(s)) == s
    ensures s[0] != '0' ==> Parse(s) > 0
  {
    var front, d := s[..|s| - 1], Value(s[|s| - 1]);
    if |s| == 1 {
      assert front == "";
      assert Parse(s) == 10 * Parse(front) + d;
      assert s == [Digit(d)];
    } else {
      ParsePrints(front);
      assert Parse(s) / 10 == Parse(front) && Parse(s) % 10 == d;
      assert s == front + [Digit(d)];
    }
  }

  function Pow10(k: nat): nat {
    if k == 0 then 1 else 10 * Pow10(k - 1)
  }

  lemma {:induction false} DecimalLength(n: nat, k: nat)
    requires k >= 1 && n < Pow10(k)
    ensures |Decimal(n)| <= k
  {
    if n >= 10 {
      DecimalLength(n / 10, k - 1);
    }
  }

  lemma FitsIn19Digits(n: nat)
    requires n <= MAX64
    ensures |Decimal(n)| <= 19
  {
    assert Pow10(5) == 100_000;
    assert Pow10(10) == 10_000_000_000;
    assert Pow10(15) == 1_000_000_000_000_000;
    assert Pow10(19) == 10_000_000_000_000_000_000;
    DecimalLength(n, 19);
  }

  /** What itoa returns: its loop does not run for a negative argument. */
  function Printed(n: int): string {
    if n < 0 then "" else Decimal(n)
  }

  /** The printer fills a 20-byte buffer from the right and never runs off its left end. */
  method Itoa(n: int) returns (s: string)
    requires n <= MAX64
    ensures s == Printed(n)
    ensures n >= 0 ==> Parse(s) == n && Canonical(s) && |s| < 20
    ensures n < 0 ==> s == ""
  {
    if n >= 0 {
      DecimalParses(n);
      FitsIn19Digits(n);
    }
    if n == 0 {
      return "0";
    }
    var b := new char[20];
    var i := b.Length;
    var m := n;
    while m > 0
      invariant 0 <= i <= b.Length
      invariant n < 0 ==> m == n && i == b.Length
      invariant n > 0 ==> 0 <= m <= n
      invariant m > 0 ==> i == 20 - |Decimal(n)| + |Decimal(m)|
      invariant n > 0 ==> Decimal(n) == (if m > 0 then Decimal(m) else "") + b[i..]
      decreases m
    {
      ghost var tail := b[i..];
      i := i - 1;
      b[i] := Digit(m % 10);
      assert b[i..] == [Digit(m % 10)] + tail;
      m := m / 10;
    }
    s := b[i..];
  }

  // ----- the repository and the service -----

  datatype Customer = Customer(id: string, email: string, name: string, createdAt: int)

  datatype Result = Created(c: Customer) | ErrConflict | ErrValidation

  datatype Repo = Repo(m: map<string, Customer>, last: int)

  const EMPTY := Repo(map[], 0)

  function IdFor(k: int): string {
    "cus_" + Printed(k)
  }

  lemma IdsDiffer(j: nat, k: nat)
    requires IdFor(j) == IdFor(k)
    ensures j == k
  {
    DecimalParses(j);
    DecimalParses(k);
    assert IdFor(j)[4..] == Decimal(j) && IdFor(k)[4..] == Decimal(k);
  }

  predicate EmailTaken(m: map<string, Customer>, email: string) {
    exists id | id in m :: m[id].email == email
  }

  /** InMemoryRepo.Create on a 64-bit counter. */
  function RepoCreate(r: Repo, c: Customer, now: int): (Repo, Result) {
    if EmailTaken(r.m, c.email) then (r, ErrConflict)
    else
      var last := Wrap64(r.last + 1);
      var made := Customer(IdFor(last), c.email, c.name, now);
      (Repo(r.m[made.id := made], last), Created(made))
  }

  /** Service.Create: validate first. */
  function ServiceCreate(r: Repo, c: Customer, now: int): (Repo, Result) {
    if !ValidCustomer(c.email, c.name) then (r, ErrValidation) else RepoCreate(r, c, now)
  }

  datatype Call = Call(c: Customer, now: int)

  function After(calls: seq<Call>): Repo {
    if calls == [] then EMPTY
    else ServiceCreate(After(calls[..|calls| - 1]), calls[|calls| - 1].c, calls[|calls| - 1].now).0
  }

  /** The IDs "cus_1" to "cus_n". */
  function Ids(n: nat): set<string> {
    if n == 0 then {} else Ids(n - 1) + {IdFor(n)}
  }

  lemma {:induction false} IdsAreNumbered(n: nat, k: nat)
    ensures IdFor(k) in Ids(n) <==> 1 <= k <= n
  {
    if n > 0 {
      IdsAreNumbered(n - 1, k);
      if IdFor(n) == IdFor(k) {
        IdsDiffer(n, k);
      }
    }
  }

  predicate RowOk(id: string, c: Customer) {
    c.id == id && ValidCustomer(c.email, c.name)
  }

  ghost predicate RowsOk(m: map<string, Customer>) {
    forall id | id in m :: RowOk(id, m[id])
  }

  ghost predicate EmailsDiffer(m: map<string, Customer>) {
    forall a, b | a in m && b in m && a != b :: m[a].email != m[b].email
  }

  ghost predicate Inv(r: Repo) {
    && 0 <= r.last == |r.m|
    && r.m.Keys == Ids(r.last)
    && RowsOk(r.m)
    && EmailsDiffer(r.m)
  }

  lemma NewRowIsOk(m: map<string, Customer>, made: Customer)
    requires RowsOk(m) && RowOk(made.id, made)
    ensures RowsOk(m[made.id := made])
  {
  }

  lemma NewKeyCounts(m: map<string, Customer>, made: Customer)
    requires made.id !in m
    ensures |m[made.id := made]| == |m| + 1
    ensures m[made.id := made].Keys == m.Keys + {made.id}
  {
  }

  lemma NewEmailDiffers(m: map<string, Customer>, made: Customer)
    requires EmailsDiffer(m) && !EmailTaken(m, made.email)
    ensures EmailsDiffer(m[made.id := made])
  {
  }

  /** The next number gives a key the repository does not have. */
  lemma NextIdIsFresh(r: Repo)
    requires 0 <= r.last < MAX64 && r.m.Keys == Ids(r.last)
    ensures IdFor(Wrap64(r.last + 1)) !in r.m && Wrap64(r.last + 1) == r.last + 1
    ensures Ids(r.last + 1) == r.m.Keys + {IdFor(r.last + 1)}
  {
    IdsAreNumbered(r.last, r.last + 1);
  }

  /** The repository after one more customer. */
  lemma InsertInv(r: Repo, made: Customer)
    requires Inv(r) && r.last < MAX64 && made.id == IdFor(r.last + 1)
    requires RowOk(made.id, made) && !EmailTaken(r.m, made.email)
    ensures Inv(Repo(r.m[made.id := made], r.last + 1)) && made.id !in r.m
  {
    NextIdIsFresh(r);
    NewEmailDiffers(r.m, made);
    NewRowIsOk(r.m, made);
    NewKeyCounts(r.m, made);
  }

  /** What an accepted request turns the repository into. */
  function Inserted(r: Repo, c: Customer, now: int): Repo {
    var made := Customer(IdFor(r.last + 1), c.email, c.name, now);
    Repo(r.m[made.id := made], r.last + 1)
  }

  lemma CreateInserts(r: Repo, c: Customer, now: int)
    requires Inv(r) && r.last < MAX64
    ensures var (after, answer) := ServiceCreate(r, c, now);
            && (answer.Created? <==> ValidCustomer(c.email, c.name) && !EmailTaken(r.m, c.email))
            && after == if answer.Created? then Inserted(r, c, now) else r
  {
    NextIdIsFresh(r);
  }

  lemma InsertedInv(r: Repo, c: Customer, now: int)
    requires Inv(r) && r.last < MAX64 && ValidCustomer(c.email, c.name) && !EmailTaken(r.m, c.email)
    ensures Inv(Inserted(r, c, now))
    ensures forall id | id in r.m :: id in Inserted(r, c, now).m && Inserted(r, c, now).m[id] == r.m[id]
  {
    InsertInv(r, Customer(IdFor(r.last + 1), c.email, c.name, now));
  }

  lemma CreateInv(r: Repo, c: Customer, now: int, after: Repo)
    requires Inv(r) && r.last < MAX64 && after == ServiceCreate(r, c, now).0
    ensures Inv(after) && after.last <= r.last + 1
    ensures forall id | id in r.m :: id in after.m && after.m[id] == r.m[id]
  {
    CreateInserts(r, c, now);
    if after != r {
      InsertedInv(r, c, now);
    }
  }

  lemma {:induction false} AfterInv(calls: seq<Call>)
    requires |calls| <= MAX64
    ensures Inv(After(calls)) && After(calls).last <= |calls|
  {
    if calls != [] {
      var before := calls[..|calls| - 1];
      AfterInv(before);
      CreateInv(After(before), calls[|calls| - 1].c, calls[|calls| - 1].now, After(calls));
    }
  }

  /** The IDs with their prefix and number spelt out. */
  lemma {:induction false} IdsSpelt(n: nat, id: string)
    ensures id in Ids(n) <==> exists k: nat :: 1 <= k <= n && id == "cus_" + Decimal(k)
  {
    if n > 0 {
      IdsSpelt(n - 1, id);
      if id in Ids(n - 1) {
        var k: nat :| 1 <= k <= n - 1 && id == "cus_" + Decimal(k);
        assert 1 <= k <= n;
      } else if id == IdFor(n) {
        assert id == "cus_" + Decimal(n);
      }
    }
  }

  /**
   Whatever calls Service.Create received, the keys are exactly "cus_1" to "cus_seq" in decimal, their
   number is seq, emails are pairwise distinct and every stored customer is valid and under its own ID.
   */
  lemma RepositoryIsNumbered(calls: seq<Call>, id: string)
    requires |calls| <= MAX64
    ensures 0 <= After(calls).last == |After(calls).m| <= |calls|
    ensures id in After(calls).m <==> exists k: nat :: 1 <= k <= After(calls).last && id == "cus_" + Decimal(k)
    ensures id in After(calls).m ==>
              && After(calls).m[id].id == id && '@' in After(calls).m[id].email && !Blank(After(calls).m[id].name)
              && forall other | other in After(calls).m && other != id ::
                   After(calls).m[other].email != After(calls).m[id].email
  {
    AfterInv(calls);
    IdsSpelt(After(calls).last, id);
    if id in After(calls).m {
      TrimmedEmptyIffBlank(After(calls).m[id].name);
    }
  }

  /** A fresh ID never overwrites: what was stored after some calls is still there after more. */
  lemma {:induction false} StoredCustomersStay(calls: seq<Call>, i: nat, id: string)
    requires |calls| <= MAX64 && i <= |calls| && id in After(calls[..i]).m
    ensures id in After(calls).m && After(calls).m[id] == After(calls[..i]).m[id]
  {
    if i == |calls| {
      assert calls[..i] == calls;
    } else {
      var before := calls[..|calls| - 1];
      assert before[..i] == calls[..i];
      StoredCustomersStay(before, i, id);
      AfterInv(before);
      CreateInv(After(before), calls[|calls| - 1].c, calls[|calls| - 1].now, After(calls));
    }
  }

  /** The answers of Service.Create, in the order they are decided. */
  lemma CreateAnswers(r: Repo, c: Customer, now: int)
    requires Inv(r) && r.last < MAX64
    ensures var (after, answer) := ServiceCreate(r, c, now);
            var taken := exists id | id in r.m :: r.m[id].email == c.email;
            if !('@' in c.email) || Blank(c.name) then answer == ErrValidation && after == r
            else if taken then answer == ErrConflict && after == r
            else
              var made := Customer("cus_" + Decimal(r.last + 1), c.email, c.name, now);
              answer == Created(made) && made.id !in r.m && after == Repo(r.m[made.id := made], r.last + 1)
  {
    TrimmedEmptyIffBlank(c.name);
    NextIdIsFresh(r);
  }

  class InMemoryRepo {
    var m: map<string, Customer>
    var last: int

    constructor ()
      ensures View() == EMPTY
    {
      m, last := map[], 0;
    }

    function View(): Repo
      reads this
    {
      Repo(m, last)
    }

    method Create(c: Customer, now: int) returns (r: Result)
      modifies this
      ensures (View(), r) == RepoCreate(old(View()), c, now)
      ensures r.ErrConflict? <==> exists id | id in old(m) :: old(m)[id].email == c.email
      ensures r.ErrConflict? ==> m == old(m) && last == old(last)
      ensures !r.ErrConflict? ==>
                && r == Created(Customer("cus_" + Printed(last), c.email, c.name, now))
                && last == Wrap64(old(last) + 1) && m == old(m)[r.c.id := r.c]
    {
      var rest := m.Keys;
      while rest != {}
        invariant rest <= m.Keys
        invariant forall id | id in m && id !in rest :: m[id].email != c.email
        decreases rest
      {
        var id :| id in rest;
        if m[id].email == c.email {
          return ErrConflict;
        }
        rest := rest - {id};
      }
      last := Wrap64(last + 1);
      var number := Itoa(last);
      var made := Customer("cus_" + number, c.email, c.name, now);
      m := m[made.id := made];
      return Created(made);
    }

    method ByID(id: string) returns (found: Option<Customer>)
      ensures found == if id in m then Some(m[id]) else None
    {
      if id in m {
        return Some(m[id]);
      }
      return None;
    }
  }

  class Service {
    const repo: InMemoryRepo

    constructor (repo: InMemoryRepo)
      ensures this.repo == repo
    {
      this.repo := repo;
    }

    method Create(c: Customer, now: int) returns (r: Result)
      modifies repo
      ensures (repo.View(), r) == ServiceCreate(old(repo.View()), c, now)
      ensures r.ErrValidation? <==> !('@' in c.email) || Blank(c.name)
      ensures r.ErrValidation? ==> repo.View() == old(repo.View())
    {
      TrimmedEmptyIffBlank(c.name);
      if !ContainsAt(c.email) || TrimSpace(c.name) == "" {
        return ErrValidation;
      }
      r := repo.Create(c, now);
    }
  }
}
