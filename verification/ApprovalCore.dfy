/** The approval table every backend keeps, its explicit-tenant statements, and the pending gauge. */
module ApprovalCore {
  import opened Wrappers
  import Sorting

  datatype Status = Pending | Approved | Rejected

  datatype Record = Record(
    id: string, requestId: string, requester: string, tenant: string, queryHash: string,
    status: Status, reviewer: Option<string>, reason: Option<string>, createdAt: int, decidedAt: Option<int>)

  datatype Decision = Approve | Reject

  datatype Ruling = Ruling(decision: Decision, reviewer: string, reason: string, at: int)

  type Table = map<string, Record>

  function Ruled(r: Record, ruling: Ruling): Record {
    r.(status := if ruling.decision == Approve then Approved else Rejected,
       reviewer := Some(ruling.reviewer), reason := Some(ruling.reason), decidedAt := Some(ruling.at))
  }

  predicate SameIdentity(a: Record, b: Record) {
    && a.id == b.id && a.requestId == b.requestId && a.requester == b.requester
    && a.tenant == b.tenant && a.queryHash == b.queryHash && a.createdAt == b.createdAt
  }

  /** What a decision makes of a row, field by field. */
  ghost predicate DecidedBy(was: Record, now: Record, ruling: Ruling) {
    && (now.status == Approved <==> ruling.decision == Approve)
    && (now.status == Rejected <==> ruling.decision == Reject)
    && now.reviewer == Some(ruling.reviewer) && now.reason == Some(ruling.reason) && now.decidedAt == Some(ruling.at)
    && now.id == was.id && now.requestId == was.requestId && now.requester == was.requester
    && now.tenant == was.tenant && now.queryHash == was.queryHash && now.createdAt == was.createdAt
  }

  lemma RuledExactly(was: Record, now: Record, ruling: Ruling)
    ensures now == Ruled(was, ruling) <==> DecidedBy(was, now, ruling)
  {
  }

  /** Changes on the abstract store: the row that a decision changes stays as it decided. */
  lemma DecisionStands(before: Table, after: Table, id: string, tenant: string, ruling: Ruling)
    requires Decidable(before, id, tenant) && Evolves(before[id := Ruled(before[id], ruling)], after)
    ensures id in after && DecidedBy(before[id], after[id], ruling)
  {
  }

  // ---- Explicit-tenant statements ----

  function Fetch(table: Table, id: string, tenant: string): Option<Record> {
    if id in table && table[id].tenant == tenant then Some(table[id]) else None
  }

  predicate Decidable(table: Table, id: string, tenant: string) {
    id in table && table[id].status == Pending && table[id].tenant == tenant
  }

  function PendingIds(table: Table, tenant: string): set<string> {
    set id | id in table && table[id].tenant == tenant && table[id].status == Pending
  }

  function PendingRows(table: Table, tenant: string): set<Record> {
    set id | id in PendingIds(table, tenant) :: table[id]
  }

  function Older(): (Record, Record) -> bool {
    (a: Record, b: Record) => a.createdAt <= b.createdAt
  }

  /** `rows` lists the set `all` once each, in order of creation. */
  ghost predicate Lists(rows: seq<Record>, all: set<Record>) {
    && multiset(rows) == multiset(all)
    && forall i, j :: 0 <= i < j < |rows| ==> rows[i].createdAt <= rows[j].createdAt
  }

  lemma OlderIsTotalPreorder()
    ensures Sorting.TotalPreorder(Older())
  {
  }

  /** `SELECT ... WHERE tenant = ? AND status = 'pending' ORDER BY created_at`. */
  method SelectPending(table: Table, tenant: string) returns (rows: seq<Record>)
    ensures Lists(rows, PendingRows(table, tenant))
  {
    rows := OrderByCreation(PendingRows(table, tenant));
  }

  /** Collects a set of rows in any order and sorts them by creation time. */
  method OrderByCreation(all: set<Record>) returns (rows: seq<Record>)
    ensures Lists(rows, all)
  {
    var todo := all;
    var found: seq<Record> := [];
    while todo != {}
      invariant todo <= all && multiset(found) == multiset(all - todo)
    {
      var r :| r in todo;
      found := found + [r];
      assert all - (todo - {r}) == (all - todo) + {r};
      todo := todo - {r};
    }
    assert all - todo == all;
    OlderIsTotalPreorder();
    Sorting.SortSorts(Older(), found);
    rows := Sorting.Sort(Older(), found);
  }

  /** Creation times that tell the rows apart leave a single listing. */
  lemma ListingIsUnique(a: seq<Record>, b: seq<Record>, all: set<Record>)
    requires Lists(a, all) && Lists(b, all)
    requires forall x, y :: x in all && y in all && x.createdAt == y.createdAt ==> x == y
    ensures a == b
  {
    forall x, y | x in a && y in a && Older()(x, y) && Older()(y, x) ensures x == y {
      assert x in multiset(a) && y in multiset(a);
    }
    Sorting.SortedIsUnique(Older(), a, b);
  }

  // ---- What no step may change ----

  /** Rows stay, keep their identity, and once decided never change again. */
  ghost predicate Evolves(before: Table, after: Table) {
    forall id :: id in before ==>
      && id in after
      && SameIdentity(before[id], after[id])
      && (before[id].status != Pending ==> after[id] == before[id])
  }

  ghost predicate Keyed(table: Table) {
    forall id :: id in table ==> table[id].id == id
  }

  lemma EvolvesTransitive(a: Table, b: Table, c: Table)
    requires Evolves(a, b) && Evolves(b, c)
    ensures Evolves(a, c)
  {
    forall id | id in a
      ensures id in c && SameIdentity(a[id], c[id]) && (a[id].status != Pending ==> c[id] == a[id])
    {
      assert id in b;
    }
  }

  /** A row that is pending after was pending, and the same row, before. */
  lemma PendingWasPending(before: Table, after: Table, id: string)
    requires WellFormed(before) && WellFormed(after)
    requires Evolves(before, after) && id in before && after[id].status == Pending
    ensures before[id] == after[id]
  {
  }

  /** A pending row carries no trace of a decision. */
  predicate Fresh(r: Record) {
    r.status == Pending && r.reviewer == None && r.reason == None && r.decidedAt == None
  }

  /** `build_pending_record`; the identifier, the digest of the query and the time are parameters. */
  function BuildPending(id: string, requestId: string, requester: string, tenant: string,
                        queryHash: string, at: int): Record
  {
    Record(id, requestId, requester, tenant, queryHash, Pending, None, None, at, None)
  }

  /** The records without a trace of a decision are exactly those that are built pending. */
  lemma FreshExactly(r: Record)
    ensures Fresh(r) <==> r == BuildPending(r.id, r.requestId, r.requester, r.tenant, r.queryHash, r.createdAt)
  {
  }

  ghost predicate WellFormed(table: Table) {
    && Keyed(table)
    && forall id :: id in table && table[id].status == Pending ==> Fresh(table[id])
  }

  // ---- The table with the pending gauge ----

  /** A committed write whose gauge update is still to come. */
  datatype Debt = Increment(tenant: string) | Decrement(tenant: string)

  datatype Core = Core(table: Table, gauge: map<string, int>, owed: map<nat, Debt>)

  datatype Change =
    | Stutter
    | Insert(op: nat, row: Record)
    | Decide(op: nat, id: string, tenant: string, ruling: Ruling)
    | Settle(op: nat)

  function Gauge(c: Core, tenant: string): int {
    if tenant in c.gauge then c.gauge[tenant] else 0
  }

  function Apply(c: Core, change: Change): Core {
    match change
    case Stutter => c
    case Insert(op, row) =>
      if op !in c.owed && row.id !in c.table && Fresh(row) then
        c.(table := c.table[row.id := row], owed := c.owed[op := Increment(row.tenant)])
      else c
    case Decide(op, id, tenant, ruling) =>
      if op !in c.owed && Decidable(c.table, id, tenant) then
        c.(table := c.table[id := Ruled(c.table[id], ruling)], owed := c.owed[op := Decrement(tenant)])
      else c
    case Settle(op) =>
      if op in c.owed then
        var t := c.owed[op].tenant;
        c.(gauge := c.gauge[t := Gauge(c, t) + if c.owed[op].Increment? then 1 else -1], owed := c.owed - {op})
      else c
  }

  function Owing(owed: map<nat, Debt>, debt: Debt): set<nat> {
    set op | op in owed && owed[op] == debt
  }

  /** Gauge minus pending rows, corrected by the updates still owed. */
  function Balance(c: Core, tenant: string): int {
    Gauge(c, tenant) - |PendingIds(c.table, tenant)|
    + |Owing(c.owed, Increment(tenant))| - |Owing(c.owed, Decrement(tenant))|
  }

  lemma ChangeEvolves(c: Core, change: Change)
    requires WellFormed(c.table)
    ensures Evolves(c.table, Apply(c, change).table) && WellFormed(Apply(c, change).table)
  {
  }

  lemma OwingAdded(owed: map<nat, Debt>, op: nat, debt: Debt, other: Debt)
    requires op !in owed
    ensures |Owing(owed[op := debt], other)| == |Owing(owed, other)| + if other == debt then 1 else 0
  {
    assert Owing(owed[op := debt], other) == Owing(owed, other) + if other == debt then {op} else {};
  }

  lemma OwingPaid(owed: map<nat, Debt>, op: nat, other: Debt)
    requires op in owed
    ensures |Owing(owed - {op}, other)| == |Owing(owed, other)| - if other == owed[op] then 1 else 0
  {
    OwingAdded(owed - {op}, op, owed[op], other);
    assert (owed - {op})[op := owed[op]] == owed;
  }

  lemma InsertCounts(table: Table, row: Record, tenant: string)
    requires row.id !in table && row.status == Pending
    ensures |PendingIds(table[row.id := row], tenant)|
         == |PendingIds(table, tenant)| + if row.tenant == tenant then 1 else 0
  {
    assert PendingIds(table[row.id := row], tenant)
        == PendingIds(table, tenant) + if row.tenant == tenant then {row.id} else {};
  }

  lemma DecideCounts(table: Table, id: string, actor: string, ruling: Ruling, tenant: string)
    requires Decidable(table, id, actor)
    ensures |PendingIds(table[id := Ruled(table[id], ruling)], tenant)|
         == |PendingIds(table, tenant)| - if actor == tenant then 1 else 0
  {
    assert PendingIds(table[id := Ruled(table[id], ruling)], tenant) == PendingIds(table, tenant) - {id};
  }

  /** Conservation: no step changes any tenant's balance. */
  lemma BalanceIsConserved(c: Core, change: Change, tenant: string)
    ensures Balance(Apply(c, change), tenant) == Balance(c, tenant)
  {
    match change
    case Stutter =>
    case Insert(op, row) =>
      if op !in c.owed && row.id !in c.table && Fresh(row) {
        InsertCounts(c.table, row, tenant);
        OwingAdded(c.owed, op, Increment(row.tenant), Increment(tenant));
        OwingAdded(c.owed, op, Increment(row.tenant), Decrement(tenant));
      }
    case Decide(op, id, actor, ruling) =>
      if op !in c.owed && Decidable(c.table, id, actor) {
        DecideCounts(c.table, id, actor, ruling, tenant);
        OwingAdded(c.owed, op, Decrement(actor), Increment(tenant));
        OwingAdded(c.owed, op, Decrement(actor), Decrement(tenant));
      }
    case Settle(op) =>
      if op in c.owed {
        OwingPaid(c.owed, op, Increment(tenant));
        OwingPaid(c.owed, op, Decrement(tenant));
      }
  }

  // ---- Runs ----

  function Run(c: Core, changes: seq<Change>): Core {
    if changes == [] then c else Apply(Run(c, changes[..|changes| - 1]), changes[|changes| - 1])
  }

  const EMPTY := Core(map[], map[], map[])

  lemma {:induction false} RunEvolves(c: Core, changes: seq<Change>, n: nat)
    requires WellFormed(c.table) && n <= |changes|
    ensures Evolves(Run(c, changes[..n]).table, Run(c, changes).table) && WellFormed(Run(c, changes).table)
  {
    if n == |changes| {
      assert changes[..n] == changes;
      if n > 0 {
        RunEvolves(c, changes[..n - 1], 0);
        ChangeEvolves(Run(c, changes[..n - 1]), changes[n - 1]);
      }
    } else {
      var m := |changes| - 1;
      RunEvolves(c, changes[..m], n);
      assert changes[..m][..n] == changes[..n];
      ChangeEvolves(Run(c, changes[..m]), changes[m]);
      EvolvesTransitive(Run(c, changes[..n]).table, Run(c, changes[..m]).table, Run(c, changes).table);
    }
  }

  /** Step n of the run is a successful decision on id. */
  ghost predicate Wins(c: Core, changes: seq<Change>, n: nat, id: string)
    requires n < |changes|
  {
    && changes[n].Decide? && changes[n].id == id
    && Run(c, changes[..n]).table != Run(c, changes[..n + 1]).table
  }

  /** Of any number of competing decisions on one approval, at most one succeeds, in any run. */
  lemma OneDecisionWins(c: Core, changes: seq<Change>, i: nat, j: nat, id: string)
    requires WellFormed(c.table) && i < j < |changes|
    requires Wins(c, changes, i, id)
    ensures !Wins(c, changes, j, id)
  {
    assert changes[..i + 1][..i] == changes[..i];
    assert changes[..j + 1][..j] == changes[..j];
    assert changes[..j][..i + 1] == changes[..i + 1];
    RunEvolves(c, changes[..j], i + 1);
  }

  lemma {:induction false} RunBalance(c: Core, changes: seq<Change>, tenant: string)
    ensures Balance(Run(c, changes), tenant) == Balance(c, tenant)
  {
    if changes != [] {
      var m := |changes| - 1;
      RunBalance(c, changes[..m], tenant);
      BalanceIsConserved(Run(c, changes[..m]), changes[m], tenant);
    }
  }

  /** From an empty store, with no update owed, the gauge of every tenant counts its pending rows. */
  lemma GaugeCountsPending(changes: seq<Change>, tenant: string)
    requires Run(EMPTY, changes).owed == map[]
    ensures Gauge(Run(EMPTY, changes), tenant) == |PendingIds(Run(EMPTY, changes).table, tenant)|
  {
    RunBalance(EMPTY, changes, tenant);
    assert PendingIds(EMPTY.table, tenant) == {};
    var c := Run(EMPTY, changes);
    assert Owing(c.owed, Increment(tenant)) == {} && Owing(c.owed, Decrement(tenant)) == {};
    assert Owing(EMPTY.owed, Increment(tenant)) == {} && Owing(EMPTY.owed, Decrement(tenant)) == {};
  }
}
