/** The PostgreSQL approval store: row-level security over a reused connection pool.
    No statement names a tenant; the tenant is a transaction-local setting of whichever connection was borrowed. */
module PostgresStore {
  import opened Wrappers
  import opened ApprovalCore

  /** A pooled connection: the tenant setting it carries, and whether it is inside a transaction. */
  datatype Connection = Connection(setting: Option<string>, open: bool)

  const CLEAN := Connection(None, false)

  datatype Statement =
    | InsertRow(row: Record)
    | UpdateRow(id: string, ruling: Ruling)
    | SelectOne(id: string)
    | SelectPending

  datatype Reply = Done | One(row: Option<Record>) | Many(rows: set<Record>) | Failed

  // ---- Statements under the row-level policy ----

  function Visible(table: Table, setting: Option<string>): Table {
    map id | id in table && setting == Some(table[id].tenant) :: table[id]
  }

  /** USING hides rows from reads and updates; WITH CHECK refuses foreign inserts; the primary key spans all tenants. */
  function UnderPolicy(table: Table, setting: Option<string>, statement: Statement): (Table, Reply) {
    var visible := Visible(table, setting);
    match statement
    case InsertRow(row) =>
      if row.id in table || setting != Some(row.tenant) then (table, Failed) else (table[row.id := row], Done)
    case UpdateRow(id, ruling) =>
      if id in visible && visible[id].status == Pending then
        (table[id := Ruled(visible[id], ruling)], One(Some(Ruled(visible[id], ruling))))
      else (table, One(None))
    case SelectOne(id) => (table, One(if id in visible then Some(visible[id]) else None))
    case SelectPending => (table, Many(set id | id in visible && visible[id].status == Pending :: visible[id]))
  }

  /** The same statements with the tenant written out, as the SQLite store writes them. */
  function WithTenant(table: Table, tenant: string, statement: Statement): (Table, Reply) {
    match statement
    case InsertRow(row) => if row.id in table then (table, Failed) else (table[row.id := row], Done)
    case UpdateRow(id, ruling) =>
      if Decidable(table, id, tenant) then
        (table[id := Ruled(table[id], ruling)], One(Some(Ruled(table[id], ruling))))
      else (table, One(None))
    case SelectOne(id) => (table, One(Fetch(table, id, tenant)))
    case SelectPending => (table, Many(PendingRows(table, tenant)))
  }

  predicate ForTenant(statement: Statement, tenant: string) {
    statement.InsertRow? ==> statement.row.tenant == tenant && Fresh(statement.row)
  }

  lemma PolicyIsExplicitTenant(table: Table, tenant: string, statement: Statement)
    requires ForTenant(statement, tenant)
    ensures UnderPolicy(table, Some(tenant), statement) == WithTenant(table, tenant, statement)
  {
    if statement.SelectPending? {
      var visible := Visible(table, Some(tenant));
      var seen := set id | id in visible && visible[id].status == Pending :: visible[id];
      forall r ensures r in seen <==> r in PendingRows(table, tenant) {
        if r in PendingRows(table, tenant) {
          var id :| id in PendingIds(table, tenant) && table[id] == r;
          assert id in visible;
        }
      }
      assert seen == PendingRows(table, tenant);
    }
  }

  /** A statement for one tenant neither changes nor returns another tenant's rows. */
  lemma ForeignRowsUntouched(table: Table, tenant: string, statement: Statement)
    requires ForTenant(statement, tenant)
    ensures
      var (after, reply) := WithTenant(table, tenant, statement);
      && (forall id :: id in table && table[id].tenant != tenant ==> id in after && after[id] == table[id])
      && (forall id :: id in after && after[id].tenant != tenant ==> id in table)
      && (reply.One? && reply.row.Some? ==> reply.row.value.tenant == tenant)
      && (reply.Many? ==> forall r :: r in reply.rows ==> r.tenant == tenant)
  {
  }

  // ---- The pool, the lock and the transaction as steps ----

  datatype Stage =
    | Waiting
    | Borrowed(c: nat)
    | Scoped(c: nat)
    | Executed(c: nat, work: Table, reply: Reply)
    | Ended(c: nat, reply: Reply)
    | Returned(reply: Reply)

  /** The store's lock: free, or held by one call that is at some stage of its transaction. */
  datatype Holder = Free | Held(op: nat, tenant: string, statement: Statement, stage: Stage)

  /** `poisoned` remembers the connections whose latest use failed while setting the tenant. */
  datatype State = State(
    core: Core, idle: seq<nat>, connections: map<nat, Connection>, poisoned: set<nat>, holder: Holder)

  datatype Event =
    | Acquire(op: nat, tenant: string, statement: Statement)
    | Borrow
    | SetConfig
    | SetConfigFails(applied: bool)
    | Execute
    | ExecuteFails
    | EndTransaction
    | GiveBack
    | Release
    | Report(op: nat)

  function Move(s: State, stage: Stage): State
    requires s.holder.Held?
  {
    s.(holder := s.holder.(stage := stage))
  }

  /** What the transaction's end does to the shared table: nothing after a failure or a pure read. */
  function Commits(h: Holder): Change
    requires h.Held?
  {
    if !h.stage.Executed? || h.stage.reply == Failed then Stutter
    else match h.statement
      case InsertRow(row) => Insert(h.op, row)
      case UpdateRow(id, ruling) =>
        if h.stage.reply.One? && h.stage.reply.row.Some? then Decide(h.op, id, h.tenant, ruling) else Stutter
      case _ => Stutter
  }

  function Effect(s: State, e: Event): Change {
    match e
    case EndTransaction => if s.holder.Held? then Commits(s.holder) else Stutter
    case Report(op) => if s.holder.Held? && s.holder.op == op then Stutter else Settle(op)
    case _ => Stutter
  }

  /** Commit publishes the transaction's own table; the gauge update is then owed. */
  function Publish(core: Core, h: Holder): Core
    requires h.Held? && h.stage.Executed?
  {
    match Commits(h)
    case Insert(op, row) => core.(table := h.stage.work, owed := core.owed[op := Increment(h.tenant)])
    case Decide(op, id, tenant, ruling) => core.(table := h.stage.work, owed := core.owed[op := Decrement(h.tenant)])
    case _ => if h.stage.reply == Failed then core else core.(table := h.stage.work)
  }

  /** What a failing set_config leaves behind: an open transaction, with the new tenant or whatever was there. */
  function Unsettled(connections: map<nat, Connection>, c: nat, tenant: string, applied: bool): Connection {
    var was := if c in connections then connections[c].setting else None;
    Connection(if applied then Some(tenant) else was, true)
  }

  function Step(s: State, e: Event): State {
    match e
    case Acquire(op, tenant, statement) =>
      if s.holder.Free? && op !in s.core.owed && ForTenant(statement, tenant) then
        s.(holder := Held(op, tenant, statement, Waiting))
      else s
    case Borrow =>
      if s.holder.Held? && s.holder.stage.Waiting? && s.idle != [] then
        Move(s.(idle := s.idle[1..]), Borrowed(s.idle[0]))
      else s
    case SetConfig =>
      if s.holder.Held? && s.holder.stage.Borrowed? then
        var c := s.holder.stage.c;
        Move(s.(connections := s.connections[c := Connection(Some(s.holder.tenant), true)]), Scoped(c))
      else s
    case SetConfigFails(applied) =>
      if s.holder.Held? && s.holder.stage.Borrowed? then
        var c := s.holder.stage.c;
        Move(s.(connections := s.connections[c := Unsettled(s.connections, c, s.holder.tenant, applied)],
                poisoned := s.poisoned + {c}, idle := s.idle + [c]), Returned(Failed))
      else s
    case Execute =>
      if s.holder.Held? && s.holder.stage.Scoped? && s.holder.stage.c in s.connections then
        var c := s.holder.stage.c;
        var (work, reply) := UnderPolicy(s.core.table, s.connections[c].setting, s.holder.statement);
        Move(s, Executed(c, work, reply))
      else s
    case ExecuteFails =>
      if s.holder.Held? && s.holder.stage.Scoped? then Move(s, Executed(s.holder.stage.c, s.core.table, Failed)) else s
    case EndTransaction =>
      if s.holder.Held? && s.holder.stage.Executed? then
        var h := s.holder;
        Move(s.(core := Publish(s.core, h), connections := s.connections[h.stage.c := CLEAN],
                poisoned := s.poisoned - {h.stage.c}), Ended(h.stage.c, h.stage.reply))
      else s
    case GiveBack =>
      if s.holder.Held? && s.holder.stage.Ended? then
        Move(s.(idle := s.idle + [s.holder.stage.c]), Returned(s.holder.stage.reply))
      else s
    case Release => if s.holder.Held? && s.holder.stage.Returned? then s.(holder := Free) else s
    case Report(op) =>
      if s.holder.Held? && s.holder.op == op then s else s.(core := Apply(s.core, Settle(op)))
  }

  function Run(s: State, events: seq<Event>): State {
    if events == [] then s else Step(Run(s, events[..|events| - 1]), events[|events| - 1])
  }

  /** Distinct clean connections over an empty table. */
  function Initial(pool: seq<nat>): State {
    State(EMPTY, pool, map c | c in pool :: CLEAN, {}, Free)
  }

  ghost predicate Distinct(pool: seq<nat>) {
    forall i, j :: 0 <= i < j < |pool| ==> pool[i] != pool[j]
  }

  // ---- The invariant ----

  function Lent(s: State): seq<nat> {
    match s.holder
    case Held(_, _, _, Borrowed(c)) => [c]
    case Held(_, _, _, Scoped(c)) => [c]
    case Held(_, _, _, Executed(c, _, _)) => [c]
    case Held(_, _, _, Ended(c, _)) => [c]
    case _ => []
  }

  /** Idle and lent connections together are the original pool, each once. */
  ghost predicate PoolComplete(s: State) {
    multiset(s.idle + Lent(s)) == multiset(s.connections.Keys)
  }

  /** Outside a transaction exactly the poisoned connections are open, and the others carry no setting. */
  ghost predicate Resting(s: State, c: nat)
    requires c in s.connections
  {
    && (s.connections[c].open <==> c in s.poisoned)
    && (c !in s.poisoned ==> s.connections[c] == CLEAN)
  }

  ghost predicate HolderOk(s: State, h: Holder)
    requires h.Held?
  {
    && ForTenant(h.statement, h.tenant)
    && (h.stage.Waiting? || h.stage.Borrowed? || h.stage.Scoped? || h.stage.Executed? ==> h.op !in s.core.owed)
    && (h.stage.Borrowed? || h.stage.Ended? ==> h.stage.c in s.connections && Resting(s, h.stage.c))
    && (h.stage.Ended? ==> h.stage.c !in s.poisoned)
    && (h.stage.Scoped? || h.stage.Executed? ==>
          h.stage.c in s.connections && s.connections[h.stage.c] == Connection(Some(h.tenant), true))
    && (h.stage.Executed? ==>
          || (h.stage.work, h.stage.reply) == WithTenant(s.core.table, h.tenant, h.statement)
          || (h.stage.work, h.stage.reply) == (s.core.table, Failed))
  }

  ghost predicate Inv(s: State) {
    && WellFormed(s.core.table)
    && PoolComplete(s)
    && (forall c :: c in s.idle ==> c in s.connections && Resting(s, c))
    && (s.holder.Held? ==> HolderOk(s, s.holder))
  }

  /** Whatever the policy let the transaction write is what the explicit-tenant statement would have written. */
  lemma StepRefines(s: State, e: Event)
    requires Inv(s)
    ensures Step(s, e).core == Apply(s.core, Effect(s, e))
  {
  }

  lemma LentIsNotIdle(s: State, c: nat)
    requires PoolComplete(s) && Lent(s) == [c]
    ensures c !in s.idle && c in s.connections
  {
    assert multiset(s.idle + [c]) == multiset(s.idle) + multiset{c};
    assert multiset(s.connections.Keys)[c] == 1 by { assert c in multiset(s.idle + [c]); }
  }

  lemma ConnectionsStay(s: State, e: Event)
    requires Inv(s)
    ensures Step(s, e).connections.Keys == s.connections.Keys
  {
    if Lent(s) != [] {
      LentIsNotIdle(s, Lent(s)[0]);
    }
  }

  /** Every step moves a connection between the queue and its borrower, or leaves both alone. */
  lemma QueueAndBorrower(s: State, e: Event)
    ensures multiset(Step(s, e).idle + Lent(Step(s, e))) == multiset(s.idle + Lent(s))
  {
    var s' := Step(s, e);
    if e.Borrow? && s.holder.Held? && s.holder.stage.Waiting? && s.idle != [] {
      assert s.idle == [s.idle[0]] + s.idle[1..];
      assert s'.idle + Lent(s') == s.idle[1..] + [s.idle[0]];
      assert s.idle + Lent(s) == s.idle;
    } else {
      assert s'.idle + Lent(s') == s.idle + Lent(s);
    }
  }

  lemma PoolStaysComplete(s: State, e: Event)
    requires Inv(s)
    ensures PoolComplete(Step(s, e))
  {
    ConnectionsStay(s, e);
    QueueAndBorrower(s, e);
  }

  lemma IdleStaysResting(s: State, e: Event, c: nat)
    requires Inv(s) && c in Step(s, e).idle
    ensures c in Step(s, e).connections && Resting(Step(s, e), c)
  {
    if Lent(s) != [] {
      LentIsNotIdle(s, Lent(s)[0]);
    }
    if c in s.idle {
      assert Resting(s, c);
    }
  }

  lemma HolderStaysOk(s: State, e: Event)
    requires Inv(s) && Step(s, e).holder.Held?
    ensures HolderOk(Step(s, e), Step(s, e).holder)
  {
    if s.holder.Held? {
      var h := s.holder;
      PolicyIsExplicitTenant(s.core.table, h.tenant, h.statement);
    }
    if e.Borrow? && s.idle != [] {
      assert s.idle[0] in s.idle;
    }
  }

  lemma StepKeepsInv(s: State, e: Event)
    requires Inv(s)
    ensures Inv(Step(s, e))
  {
    StepRefines(s, e);
    ChangeEvolves(s.core, Effect(s, e));
    PoolStaysComplete(s, e);
    forall c | c in Step(s, e).idle ensures c in Step(s, e).connections && Resting(Step(s, e), c) {
      IdleStaysResting(s, e, c);
    }
    if Step(s, e).holder.Held? {
      HolderStaysOk(s, e);
    }
  }

  lemma DistinctPool(pool: seq<nat>)
    requires Distinct(pool)
    ensures multiset(pool) == multiset(set c | c in pool)
  {
    if pool != [] {
      var n := |pool| - 1;
      DistinctPool(pool[..n]);
      assert pool == pool[..n] + [pool[n]];
      assert (set c | c in pool) == (set c | c in pool[..n]) + {pool[n]};
      assert pool[n] !in (set c | c in pool[..n]);
    }
  }

  lemma {:induction false} RunKeepsInv(pool: seq<nat>, events: seq<Event>)
    requires Distinct(pool)
    ensures Inv(Run(Initial(pool), events))
    ensures Run(Initial(pool), events).connections.Keys == set c | c in pool
  {
    if events == [] {
      DistinctPool(pool);
      assert Initial(pool).idle + Lent(Initial(pool)) == pool;
      assert Initial(pool).connections.Keys == set c | c in pool;
    } else {
      var n := |events| - 1;
      RunKeepsInv(pool, events[..n]);
      StepKeepsInv(Run(Initial(pool), events[..n]), events[n]);
      ConnectionsStay(Run(Initial(pool), events[..n]), events[n]);
    }
  }

  // ---- Which idle connections are not clean, told by the events alone ----

  /** In state s, e is set_config failing on the connection c; with `applied`, after it took effect. */
  predicate Breaks(s: State, e: Event, c: nat, applied: bool) {
    s.holder.Held? && s.holder.stage == Borrowed(c) && e.SetConfigFails? && (applied ==> e.applied)
  }

  /** In state s, e is the end of a transaction on the connection c. */
  predicate Cleans(s: State, e: Event, c: nat) {
    s.holder.Held? && s.holder.stage.Executed? && s.holder.stage.c == c && e == EndTransaction
  }

  predicate BreaksAt(pool: seq<nat>, events: seq<Event>, k: nat, c: nat, applied: bool) {
    k < |events| && Breaks(Run(Initial(pool), events[..k]), events[k], c, applied)
  }

  predicate CleansAt(pool: seq<nat>, events: seq<Event>, k: nat, c: nat) {
    k < |events| && Cleans(Run(Initial(pool), events[..k]), events[k], c)
  }

  /** Among the first n events set_config failed on c, and no transaction on c has ended since. */
  ghost predicate LeftBroken(pool: seq<nat>, events: seq<Event>, n: nat, c: nat, applied: bool) {
    exists k: nat :: k < n && BreaksAt(pool, events, k, c, applied)
                     && forall m: nat :: k < m < n ==> !CleansAt(pool, events, m, c)
  }

  lemma BreakingDoesNotClean(pool: seq<nat>, events: seq<Event>, n: nat, c: nat, applied: bool)
    ensures BreaksAt(pool, events, n, c, applied) ==> !CleansAt(pool, events, n, c)
  {
  }

  lemma LeftBrokenStep(pool: seq<nat>, events: seq<Event>, n: nat, c: nat, applied: bool)
    ensures LeftBroken(pool, events, n + 1, c, applied) <==>
      || BreaksAt(pool, events, n, c, applied)
      || (LeftBroken(pool, events, n, c, applied) && !CleansAt(pool, events, n, c))
  {
    hide BreaksAt, CleansAt;
    BreakingDoesNotClean(pool, events, n, c, applied);
    if BreaksAt(pool, events, n, c, applied) {
      assert forall m: nat :: n < m < n + 1 ==> !CleansAt(pool, events, m, c);
    } else if LeftBroken(pool, events, n, c, applied) && !CleansAt(pool, events, n, c) {
      var k: nat :| k < n && BreaksAt(pool, events, k, c, applied)
                    && forall m: nat :: k < m < n ==> !CleansAt(pool, events, m, c);
      assert forall m: nat :: k < m < n + 1 ==> !CleansAt(pool, events, m, c);
    }
  }

  /** c is inside the transaction of the call that holds the lock, past a successful set_config. */
  predicate InUse(s: State, c: nat) {
    s.holder.Held? && (s.holder.stage.Scoped? || s.holder.stage.Executed?) && s.holder.stage.c == c
  }

  lemma StepBreaks(s: State, e: Event, c: nat)
    requires Inv(s) && c in s.connections
    ensures
      var t := Step(s, e);
      && (c in t.poisoned <==> Breaks(s, e, c, false) || (c in s.poisoned && !Cleans(s, e, c)))
      && c in t.connections
      && (!InUse(t, c) ==>
            if Breaks(s, e, c, true) then t.connections[c].setting.Some?
            else if Cleans(s, e, c) then t.connections[c].setting == None
            else !InUse(s, c) && t.connections[c].setting == s.connections[c].setting)
  {
    hide UnderPolicy, WithTenant, PoolComplete, WellFormed, Publish;
  }

  lemma {:induction false} BrokenByEvents(pool: seq<nat>, events: seq<Event>, n: nat, c: nat)
    requires Distinct(pool) && c in pool && n <= |events|
    ensures
      var s := Run(Initial(pool), events[..n]);
      && c in s.connections && (c in s.poisoned <==> LeftBroken(pool, events, n, c, false))
      && (!InUse(s, c) ==> (s.connections[c].setting.Some? <==> LeftBroken(pool, events, n, c, true)))
  {
    hide Inv, Step, LeftBroken, InUse;
    if n == 0 {
      NothingBrokenYet(pool, events, c);
    } else {
      var m := n - 1;
      BrokenByEvents(pool, events, m, c);
      RunStep(pool, events, m);
      RunKeepsInv(pool, events[..m]);
      StepBreaks(Run(Initial(pool), events[..m]), events[m], c);
      LeftBrokenStep(pool, events, m, c, false);
      LeftBrokenStep(pool, events, m, c, true);
    }
  }

  lemma NothingBrokenYet(pool: seq<nat>, events: seq<Event>, c: nat)
    requires c in pool
    ensures Run(Initial(pool), events[..0]) == Initial(pool)
    ensures Initial(pool).poisoned == {} && c in Initial(pool).connections && Initial(pool).connections[c] == CLEAN
    ensures !LeftBroken(pool, events, 0, c, false) && !LeftBroken(pool, events, 0, c, true)
  {
  }

  /** In every interleaving, idle and borrowed connections are together the original pool and at most one is borrowed.
      An idle connection is inside a transaction exactly when set_config, which runs outside the rollback's reach, has
      failed on it since a transaction on it last ended; it carries a tenant exactly when such a failure came after
      the setting took effect; otherwise it is clean. */
  lemma IdleConnectionsAreCleanUnlessSetConfigFailed(pool: seq<nat>, events: seq<Event>)
    requires Distinct(pool)
    ensures
      var s := Run(Initial(pool), events);
      && |Lent(s)| <= 1
      && multiset(s.idle + Lent(s)) == multiset(pool)
      && forall c :: c in s.idle ==>
           && c in s.connections
           && (s.connections[c].open <==> LeftBroken(pool, events, |events|, c, false))
           && (s.connections[c].setting.Some? <==> LeftBroken(pool, events, |events|, c, true))
           && (s.connections[c] == CLEAN <==> !LeftBroken(pool, events, |events|, c, false))
  {
    hide LeftBroken, Run, PoolComplete, HolderOk;
    RunKeepsInv(pool, events);
    DistinctPool(pool);
    var s := Run(Initial(pool), events);
    assert multiset(s.idle + Lent(s)) == multiset(pool) by { PoolIsWhole(pool, s); }
    forall c | c in s.idle
      ensures c in s.connections && (s.connections[c].open <==> LeftBroken(pool, events, |events|, c, false))
      ensures s.connections[c].setting.Some? <==> LeftBroken(pool, events, |events|, c, true)
      ensures s.connections[c] == CLEAN <==> !LeftBroken(pool, events, |events|, c, false)
    {
      assert Resting(s, c);
      IdleIsUnused(s, c);
      assert events[..|events|] == events;
      BrokenByEvents(pool, events, |events|, c);
    }
  }

  lemma PoolIsWhole(pool: seq<nat>, s: State)
    requires PoolComplete(s) && s.connections.Keys == (set c | c in pool)
    requires multiset(pool) == multiset(set c | c in pool)
    ensures multiset(s.idle + Lent(s)) == multiset(pool)
  {
  }

  lemma IdleIsUnused(s: State, c: nat)
    requires Inv(s) && c in s.idle
    ensures !InUse(s, c)
  {
    if Lent(s) != [] {
      LentIsNotIdle(s, Lent(s)[0]);
    }
  }

  /** Such a connection does occur: after a failing set_config it waits in the queue inside a transaction. */
  lemma FailedSettingLeavesOpenConnection(op: nat, tenant: string, id: string)
    ensures
      var s := Run(Initial([0]), [Acquire(op, tenant, SelectOne(id)), Borrow, SetConfigFails(true), Release]);
      && s.holder == Free && s.idle == [0] && s.poisoned == {0}
      && 0 in s.connections && s.connections[0] == Connection(Some(tenant), true)
  {
    var events := [Acquire(op, tenant, SelectOne(id)), Borrow, SetConfigFails(true), Release];
    FourSteps(Initial([0]), events);
    SettingFailsStep(Initial([0]), op, tenant, SelectOne(id), true);
    hide Step;
    assert After(Initial([0]), op, tenant, SelectOne(id), SettingFails(true)).idle == [0];
  }

  lemma FourSteps(s: State, events: seq<Event>)
    requires |events| == 4
    ensures Run(s, events) == Step(Step(Step(Step(s, events[0]), events[1]), events[2]), events[3])
  {
    hide Step;
    assert events[..3][..2] == events[..2] && events[..2][..1] == events[..1] && events[..1][..0] == [];
    assert Run(s, events[..1]) == Step(s, events[0]);
    assert Run(s, events[..2]) == Step(Run(s, events[..1]), events[1]);
    assert Run(s, events[..3]) == Step(Run(s, events[..2]), events[2]);
  }

  /** If set_config never fails, no connection is ever poisoned, so every idle one is clean. */
  lemma {:induction false} NoFailureNoPoison(s: State, events: seq<Event>)
    requires s.poisoned == {}
    requires forall i :: 0 <= i < |events| ==> !events[i].SetConfigFails?
    ensures Run(s, events).poisoned == {}
  {
    if events != [] {
      NoFailureNoPoison(s, events[..|events| - 1]);
    }
  }

  function HolderAt(pool: seq<nat>, events: seq<Event>, n: nat): Holder
    requires n <= |events|
  {
    Run(Initial(pool), events[..n]).holder
  }

  /** Step k is the driver raising in the transaction still under way after n events. */
  ghost predicate DriverFailedAt(pool: seq<nat>, events: seq<Event>, n: nat, k: int) {
    && 0 <= k < n <= |events| && events[k] == ExecuteFails
    && forall m :: k < m <= n ==> HolderAt(pool, events, m) == HolderAt(pool, events, n)
  }

  /** The transaction under way will commit and return the explicit-tenant statement's effect on the shared table. */
  ghost predicate AsExplicit(s: State) {
    && s.holder.Held? && s.holder.stage.Executed?
    && (s.holder.stage.work, s.holder.stage.reply) == WithTenant(s.core.table, s.holder.tenant, s.holder.statement)
  }

  /** An executed statement stays as it is until its transaction ends. */
  lemma ExecutedStays(s: State, e: Event)
    requires Inv(s) && Step(s, e).holder.Held? && Step(s, e).holder.stage.Executed?
    ensures
      || (s.holder == Step(s, e).holder && s.core.table == Step(s, e).core.table)
      || AsExplicit(Step(s, e))
      || (e == ExecuteFails
          && (Step(s, e).holder.stage.work, Step(s, e).holder.stage.reply) == (Step(s, e).core.table, Failed))
  {
    if s.holder.Held? {
      PolicyIsExplicitTenant(s.core.table, s.holder.tenant, s.holder.statement);
    }
  }

  lemma StartsFree(pool: seq<nat>, events: seq<Event>)
    ensures HolderAt(pool, events, 0) == Free
  {
  }

  lemma RunStep(pool: seq<nat>, events: seq<Event>, m: nat)
    requires m < |events|
    ensures Run(Initial(pool), events[..m + 1]) == Step(Run(Initial(pool), events[..m]), events[m])
  {
    hide Step;
    assert events[..m + 1][..m] == events[..m];
  }

  lemma FailureIsLatest(pool: seq<nat>, events: seq<Event>, m: nat)
    requires m < |events| && events[m] == ExecuteFails
    ensures DriverFailedAt(pool, events, m + 1, m)
  {
  }

  lemma FailureStaysLatest(pool: seq<nat>, events: seq<Event>, n: nat, k: int)
    requires n < |events| && DriverFailedAt(pool, events, n, k)
    requires HolderAt(pool, events, n) == HolderAt(pool, events, n + 1)
    ensures DriverFailedAt(pool, events, n + 1, k)
  {
    hide HolderAt;
  }

  /** What a call is about to commit and return after n events, in every interleaving and whatever setting its
      connection last carried: the explicit-tenant statement's effect on the shared table, unless the driver raised
      in this very transaction, and then nothing. */
  lemma {:induction false} EveryCallIsExplicitTenant(pool: seq<nat>, events: seq<Event>, n: nat)
    requires Distinct(pool) && n <= |events|
    requires HolderAt(pool, events, n).Held? && HolderAt(pool, events, n).stage.Executed?
    ensures
      var s := Run(Initial(pool), events[..n]);
      || AsExplicit(s)
      || ((s.holder.stage.work, s.holder.stage.reply) == (s.core.table, Failed)
          && exists k :: DriverFailedAt(pool, events, n, k))
  {
    hide Step, Run, WithTenant, DriverFailedAt, Inv;
    StartsFree(pool, events);
    if n > 0 {
      var m := n - 1;
      RunStep(pool, events, m);
      RunKeepsInv(pool, events[..m]);
      RunKeepsInv(pool, events[..n]);
      ExecutedStays(Run(Initial(pool), events[..m]), events[m]);
      if !AsExplicit(Run(Initial(pool), events[..n])) {
        var s, t := Run(Initial(pool), events[..m]), Run(Initial(pool), events[..n]);
        if s.holder == t.holder && s.core.table == t.core.table {
          EveryCallIsExplicitTenant(pool, events, m);
          var k :| DriverFailedAt(pool, events, m, k);
          FailureStaysLatest(pool, events, m, k);
        } else {
          FailureIsLatest(pool, events, m);
        }
      }
    }
  }

  /** A call that holds the lock and waits for a connection always finds one. */
  lemma BorrowNeverBlocks(pool: seq<nat>, events: seq<Event>)
    requires Distinct(pool) && pool != []
    requires var h := Run(Initial(pool), events).holder; h.Held? && h.stage.Waiting?
    ensures Run(Initial(pool), events).idle != []
  {
    RunKeepsInv(pool, events);
    var s := Run(Initial(pool), events);
    assert s.idle + Lent(s) == s.idle;
    assert pool[0] in multiset(s.connections.Keys);
    assert pool[0] in s.idle by { assert pool[0] in multiset(s.idle); }
  }

  function Changes(s: State, events: seq<Event>): seq<Change> {
    if events == [] then []
    else
      var n := |events| - 1;
      Changes(s, events[..n]) + [Effect(Run(s, events[..n]), events[n])]
  }

  lemma {:induction false} RunRefinesCore(pool: seq<nat>, events: seq<Event>)
    requires Distinct(pool)
    ensures Run(Initial(pool), events).core == ApprovalCore.Run(EMPTY, Changes(Initial(pool), events))
  {
    if events != [] {
      var n := |events| - 1;
      RunRefinesCore(pool, events[..n]);
      RunKeepsInv(pool, events[..n]);
      StepRefines(Run(Initial(pool), events[..n]), events[n]);
      var init := Changes(Initial(pool), events[..n]);
      assert Changes(Initial(pool), events)[..|init|] == init;
    }
  }

  /** With no gauge update owed the gauge of each tenant counts its pending rows. */
  lemma QuiescentGauge(pool: seq<nat>, events: seq<Event>, tenant: string)
    requires Distinct(pool) && Run(Initial(pool), events).core.owed == map[]
    ensures
      var core := Run(Initial(pool), events).core;
      Gauge(core, tenant) == |PendingIds(core.table, tenant)|
  {
    RunRefinesCore(pool, events);
    GaugeCountsPending(Changes(Initial(pool), events), tenant);
  }

  // ---- Decisions, over a run ----

  lemma StepEvolves(s: State, e: Event)
    requires Inv(s)
    ensures Evolves(s.core.table, Step(s, e).core.table) && WellFormed(Step(s, e).core.table)
  {
    StepRefines(s, e);
    ChangeEvolves(s.core, Effect(s, e));
  }

  /** Between any two moments of any run rows stay, keep their identity and, once decided, never change. */
  lemma {:induction false} RowsEvolve(pool: seq<nat>, events: seq<Event>, n: nat)
    requires Distinct(pool) && n <= |events|
    ensures Evolves(Run(Initial(pool), events[..n]).core.table, Run(Initial(pool), events).core.table)
  {
    if n == |events| {
      assert events[..n] == events;
    } else {
      var m := |events| - 1;
      RowsEvolve(pool, events[..m], n);
      assert events[..m][..n] == events[..n];
      RunKeepsInv(pool, events[..m]);
      StepEvolves(Run(Initial(pool), events[..m]), events[m]);
      EvolvesTransitive(Run(Initial(pool), events[..n]).core.table, Run(Initial(pool), events[..m]).core.table,
                        Run(Initial(pool), events).core.table);
    }
  }

  /** The lock's holder has executed its UPDATE of id and got a row back: its decide call succeeds unless it crashes. */
  predicate GotRow(s: State, id: string) {
    && s.holder.Held? && s.holder.stage.Executed? && s.holder.statement.UpdateRow? && s.holder.statement.id == id
    && s.holder.stage.reply.One? && s.holder.stage.reply.row.Some?
  }

  /** In every interleaving an executed UPDATE has got a row exactly when the driver did not raise and the row is there,
      pending and its tenant's. */
  lemma RowExactlyWhenDecidable(pool: seq<nat>, events: seq<Event>, id: string)
    requires Distinct(pool)
    requires
      var h := Run(Initial(pool), events).holder;
      h.Held? && h.stage.Executed? && h.statement.UpdateRow? && h.statement.id == id
    ensures
      var s := Run(Initial(pool), events);
      GotRow(s, id) <==> s.holder.stage.reply != Failed && Decidable(s.core.table, id, s.holder.tenant)
  {
    hide Run, PoolComplete;
    RunKeepsInv(pool, events);
  }

  lemma RowMeansPending(s: State, id: string)
    requires Inv(s) && GotRow(s, id)
    ensures id in s.core.table && s.core.table[id].status == Pending
    ensures
      var after := Step(s, EndTransaction).core.table;
      id in after && after[id].status != Pending && s.holder.stage.reply.row == Some(after[id])
  {
  }

  /** Once the UPDATE of one decide call on an approval has been committed, no later one in the run gets a row. */
  lemma OneDecisionWins(pool: seq<nat>, events: seq<Event>, i: nat, j: nat, id: string)
    requires Distinct(pool) && i < j <= |events|
    requires GotRow(Run(Initial(pool), events[..i]), id) && events[i] == EndTransaction
    ensures !GotRow(Run(Initial(pool), events[..j]), id)
  {
    assert events[..i + 1][..i] == events[..i];
    assert events[..j][..i + 1] == events[..i + 1];
    RunKeepsInv(pool, events[..i]);
    RunKeepsInv(pool, events[..j]);
    RowMeansPending(Run(Initial(pool), events[..i]), id);
    RowsEvolve(pool, events[..j], i + 1);
    if GotRow(Run(Initial(pool), events[..j]), id) {
      RowMeansPending(Run(Initial(pool), events[..j]), id);
    }
  }

  /** The row a committed UPDATE changes stays, for the rest of the run, exactly as that call decided it. */
  lemma DecisionStands(pool: seq<nat>, events: seq<Event>, i: nat, n: nat, id: string)
    requires Distinct(pool) && i < n <= |events|
    requires GotRow(Run(Initial(pool), events[..i]), id) && events[i] == EndTransaction
    ensures
      var s, now := Run(Initial(pool), events[..i]), Run(Initial(pool), events[..n]).core.table;
      var was, ruling := s.core.table, s.holder.statement.ruling;
      && id in was && id in now && DecidedBy(was[id], now[id], ruling)
      && (now[id].status == Approved <==> ruling.decision == Approve)
  {
    hide Run, Inv, Step;
    RunStep(pool, events, i);
    assert events[..n][..i + 1] == events[..i + 1];
    RunKeepsInv(pool, events[..i]);
    CommitDecides(Run(Initial(pool), events[..i]), id);
    RowsEvolve(pool, events[..n], i + 1);
    var s := Run(Initial(pool), events[..i]);
    ApprovalCore.DecisionStands(s.core.table, Run(Initial(pool), events[..n]).core.table, id,
                                s.holder.tenant, s.holder.statement.ruling);
  }

  lemma CommitDecides(s: State, id: string)
    requires Inv(s) && GotRow(s, id)
    ensures
      var before, ruling := s.core.table, s.holder.statement.ruling;
      && Decidable(before, id, s.holder.tenant)
      && Step(s, EndTransaction).core.table == before[id := Ruled(before[id], ruling)]
  {
  }

  // ---- One whole transaction ----

  /** Where the driver may raise: in set_config, before the try, or in the statement, inside it. */
  datatype Mishap = Nothing | SettingFails(applied: bool) | StatementFails

  function Transaction(s: State, op: nat, tenant: string, statement: Statement, mishap: Mishap): State {
    var s2 := Step(Step(s, Acquire(op, tenant, statement)), Borrow);
    if mishap.SettingFails? then Step(Step(s2, SetConfigFails(mishap.applied)), Release)
    else
      var s4 := Step(Step(s2, SetConfig), if mishap.StatementFails? then ExecuteFails else Execute);
      Step(Step(Step(s4, EndTransaction), GiveBack), Release)
  }

  /** The same transaction in one go, on explicit tenants: the connection used moves to the back, clean,
      or open and unsettled if set_config failed on it. */
  function After(s: State, op: nat, tenant: string, statement: Statement, mishap: Mishap): State
    requires s.idle != []
  {
    if mishap.SettingFails? then
      var c := s.idle[0];
      s.(idle := s.idle[1..] + s.idle[..1], poisoned := s.poisoned + {c},
         connections := s.connections[c := Unsettled(s.connections, c, tenant, mishap.applied)])
    else Committed(s, op, tenant, statement, mishap.StatementFails?)
  }

  function Committed(s: State, op: nat, tenant: string, statement: Statement, fails: bool): State
    requires s.idle != []
  {
    var c := s.idle[0];
    var (table, reply) := if fails then (s.core.table, Failed) else WithTenant(s.core.table, tenant, statement);
    var owed :=
      if statement.InsertRow? && reply == Done then s.core.owed[op := Increment(tenant)]
      else if statement.UpdateRow? && reply.One? && reply.row.Some? then s.core.owed[op := Decrement(tenant)]
      else s.core.owed;
    State(s.core.(table := table, owed := owed), s.idle[1..] + s.idle[..1],
          s.connections[c := CLEAN], s.poisoned - {c}, Free)
  }

  /** Locked, borrowed, and scoped to the tenant. */
  function Inside(s: State, op: nat, tenant: string, statement: Statement): State
    requires s.idle != []
  {
    var c := s.idle[0];
    s.(idle := s.idle[1..], connections := s.connections[c := Connection(Some(tenant), true)],
       holder := Held(op, tenant, statement, Scoped(c)))
  }

  function Answered(s: State, op: nat, tenant: string, statement: Statement, fails: bool): State
    requires s.idle != []
  {
    var (work, reply) := if fails then (s.core.table, Failed) else WithTenant(s.core.table, tenant, statement);
    Inside(s, op, tenant, statement).(holder := Held(op, tenant, statement, Executed(s.idle[0], work, reply)))
  }

  lemma ThreeStepsIn(s: State, op: nat, tenant: string, statement: Statement)
    requires s.holder == Free && s.idle != [] && op !in s.core.owed && ForTenant(statement, tenant)
    ensures Step(Step(Step(s, Acquire(op, tenant, statement)), Borrow), SetConfig) == Inside(s, op, tenant, statement)
  {
    var s1 := Step(s, Acquire(op, tenant, statement));
    var s2 := Step(s1, Borrow);
    assert s2.holder == Held(op, tenant, statement, Borrowed(s.idle[0])) && s2.idle == s.idle[1..];
  }

  lemma StatementStep(s: State, op: nat, tenant: string, statement: Statement, fails: bool)
    requires s.idle != [] && ForTenant(statement, tenant)
    ensures Step(Inside(s, op, tenant, statement), if fails then ExecuteFails else Execute)
         == Answered(s, op, tenant, statement, fails)
  {
    PolicyIsExplicitTenant(s.core.table, tenant, statement);
  }

  lemma ThreeStepsOut(s: State, op: nat, tenant: string, statement: Statement, fails: bool)
    requires s.idle != [] && ForTenant(statement, tenant)
    ensures Step(Step(Step(Answered(s, op, tenant, statement, fails), EndTransaction), GiveBack), Release)
         == Committed(s, op, tenant, statement, fails)
  {
    var c := s.idle[0];
    var s4 := Answered(s, op, tenant, statement, fails);
    var s5 := Step(s4, EndTransaction);
    assert s5.core == Committed(s, op, tenant, statement, fails).core;
    assert s5.connections == s.connections[c := CLEAN];
    var s6 := Step(s5, GiveBack);
    assert s6.idle == s.idle[1..] + [c] && [c] == s.idle[..1];
  }

  lemma SettingFailsStep(s: State, op: nat, tenant: string, statement: Statement, applied: bool)
    requires s.holder == Free && s.idle != [] && op !in s.core.owed && ForTenant(statement, tenant)
    ensures Step(Step(Step(Step(s, Acquire(op, tenant, statement)), Borrow), SetConfigFails(applied)), Release)
         == After(s, op, tenant, statement, SettingFails(applied))
  {
    var s1 := Step(s, Acquire(op, tenant, statement));
    var s2 := Step(s1, Borrow);
    assert s2.holder == Held(op, tenant, statement, Borrowed(s.idle[0])) && s2.idle == s.idle[1..];
    assert [s.idle[0]] == s.idle[..1];
  }

  /** The steps through lock, pool, setting, policy and commit come to one explicit-tenant statement, whatever tenant or
      open transaction the borrowed connection was left with; one whose set_config or statement fails changes no row. */
  lemma TransactionIsExplicitTenant(s: State, op: nat, tenant: string, statement: Statement, mishap: Mishap)
    requires s.holder == Free && s.idle != [] && op !in s.core.owed && ForTenant(statement, tenant)
    ensures Transaction(s, op, tenant, statement, mishap) == After(s, op, tenant, statement, mishap)
    ensures mishap != Nothing ==> After(s, op, tenant, statement, mishap).core == s.core
    ensures mishap == Nothing ==>
      After(s, op, tenant, statement, mishap).core.table == WithTenant(s.core.table, tenant, statement).0
  {
    hide Step;
    if mishap.SettingFails? {
      SettingFailsStep(s, op, tenant, statement, mishap.applied);
    } else {
      ThreeStepsIn(s, op, tenant, statement);
      StatementStep(s, op, tenant, statement, mishap.StatementFails?);
      ThreeStepsOut(s, op, tenant, statement, mishap.StatementFails?);
    }
  }

  /** Commit or rollback, return of the connection and release of the lock, together. */
  lemma LeaveSteps(s: State, c: nat)
    requires s.holder.Held? && s.holder.stage.Executed? && s.holder.stage.c == c
    ensures Step(Step(Step(s, EndTransaction), GiveBack), Release)
         == State(Publish(s.core, s.holder), s.idle + [c], s.connections[c := CLEAN], s.poisoned - {c}, Free)
  {
  }

  // ---- The store object ----

  datatype Error = DriverFailed | MissingDecidedOrForeign

  class PostgreSQLApprovalStore {
    var table: Table
    var gauge: map<string, int>
    var idle: seq<nat>
    var connections: map<nat, Connection>
    var holder: Holder
    ghost var owed: map<nat, Debt>
    ghost var poisoned: set<nat>

    ghost function Snapshot(): State
      reads this
    {
      State(Core(table, gauge, owed), idle, connections, poisoned, holder)
    }

    constructor (pool: seq<nat>)
      requires Distinct(pool)
      ensures Snapshot() == Initial(pool)
    {
      table, gauge, owed, poisoned := map[], map[], map[], {};
      idle, connections, holder := pool, map c | c in pool :: CLEAN, Free;
    }

    /** Takes the lock and the connection at the head of the queue, and sets its tenant. */
    method Enter(op: nat, tenant: string, statement: Statement) returns (c: nat)
      requires holder == Free && idle != []
      modifies this`holder, this`idle, this`connections
      ensures c == old(idle)[0] && c in connections
      ensures Snapshot() == Inside(old(Snapshot()), op, tenant, statement)
    {
      holder := Held(op, tenant, statement, Waiting);
      c := idle[0];
      idle := idle[1..];
      holder := Held(op, tenant, statement, Borrowed(c));
      connections := connections[c := Connection(Some(tenant), true)];
      holder := Held(op, tenant, statement, Scoped(c));
    }

    /** Runs the statement under whatever setting the connection carries; `fails` is the driver raising. */
    method RunStatement(c: nat, fails: bool) returns (reply: Reply)
      requires holder.Held? && holder.stage == Scoped(c) && c in connections
      modifies this`holder
      ensures Snapshot() == Step(old(Snapshot()), if fails then ExecuteFails else Execute)
      ensures holder.Held? && holder.stage.Executed? && holder.stage.c == c && holder.stage.reply == reply
    {
      var (work, answer) :=
        if fails then (table, Failed) else UnderPolicy(table, connections[c].setting, holder.statement);
      reply := answer;
      holder := holder.(stage := Executed(c, work, reply));
    }

    /** Commit, or rollback after an error; the connection goes to the back of the queue and the lock is released. */
    method Leave(c: nat)
      requires holder.Held? && holder.stage.Executed? && holder.stage.c == c
      modifies this`table, this`owed, this`connections, this`poisoned, this`holder, this`idle
      ensures Snapshot() == Step(Step(Step(old(Snapshot()), EndTransaction), GiveBack), Release)
    {
      hide Step;
      ghost var core := Publish(Snapshot().core, holder);
      LeaveSteps(Snapshot(), c);
      if holder.stage.reply != Failed {
        table := holder.stage.work;
      }
      owed, connections, poisoned := core.owed, connections[c := CLEAN], poisoned - {c};
      holder := holder.(stage := Ended(c, holder.stage.reply));
      idle := idle + [c];
      holder := Free;
    }

    /** The driver raises in set_config: the lock and the connection are given back, the connection as it is. */
    method FailToEnter(op: nat, tenant: string, statement: Statement, applied: bool)
      requires holder == Free && idle != [] && op !in owed && ForTenant(statement, tenant)
      modifies this`holder, this`idle, this`connections, this`poisoned
      ensures Snapshot() == After(old(Snapshot()), op, tenant, statement, SettingFails(applied))
    {
      holder := Held(op, tenant, statement, Waiting);
      var c := idle[0];
      idle := idle[1..];
      holder := Held(op, tenant, statement, Borrowed(c));
      connections, poisoned := connections[c := Unsettled(connections, c, tenant, applied)], poisoned + {c};
      idle := idle + [c];
      holder := Free;
      assert [c] == old(idle)[..1];
    }

    /** One tenant-scoped transaction, from lock to unlock. */
    method TenantScoped(op: nat, tenant: string, statement: Statement, mishap: Mishap) returns (reply: Reply)
      requires holder == Free && idle != [] && op !in owed && ForTenant(statement, tenant)
      modifies this
      ensures Snapshot() == After(old(Snapshot()), op, tenant, statement, mishap)
      ensures reply == if mishap != Nothing then Failed else WithTenant(old(table), tenant, statement).1
    {
      ghost var s := Snapshot();
      if mishap.SettingFails? {
        FailToEnter(op, tenant, statement, mishap.applied);
        return Failed;
      }
      StatementStep(s, op, tenant, statement, mishap.StatementFails?);
      ThreeStepsOut(s, op, tenant, statement, mishap.StatementFails?);
      var c := Enter(op, tenant, statement);
      reply := RunStatement(c, mishap.StatementFails?);
      Leave(c);
    }

    method MoveGauge(op: nat, tenant: string, change: int)
      requires holder == Free && op in owed
      requires owed[op] == if change == 1 then Increment(tenant) else Decrement(tenant)
      requires change == 1 || change == -1
      modifies this`gauge, this`owed
      ensures Snapshot() == Step(old(Snapshot()), Report(op))
      ensures gauge == old(gauge)[tenant := (if tenant in old(gauge) then old(gauge)[tenant] else 0) + change]
      ensures owed == old(owed) - {op}
    {
      gauge := gauge[tenant := (if tenant in gauge then gauge[tenant] else 0) + change];
      owed := owed - {op};
    }

    method CreatePending(op: nat, row: Record, mishap: Mishap) returns (r: Result<Record, Error>)
      requires holder == Free && idle != [] && op !in owed && Fresh(row)
      modifies this
      ensures mishap != Nothing || row.id in old(table) ==>
        r == Err(DriverFailed) && table == old(table) && gauge == old(gauge)
      ensures mishap == Nothing && row.id !in old(table) ==>
        && r == Ok(row)
        && table == old(table)[row.id := row]
        && gauge == old(gauge)[row.tenant := (if row.tenant in old(gauge) then old(gauge)[row.tenant] else 0) + 1]
      ensures owed == old(owed) && holder == Free && idle == old(idle)[1..] + old(idle)[..1]
    {
      var reply := TenantScoped(op, row.tenant, InsertRow(row), mishap);
      if reply == Failed {
        return Err(DriverFailed);
      }
      MoveGauge(op, row.tenant, 1);
      return Ok(row);
    }

    method DecidePending(op: nat, id: string, tenant: string, ruling: Ruling, mishap: Mishap)
      returns (r: Result<Record, Error>)
      requires holder == Free && idle != [] && op !in owed
      modifies this
      ensures mishap != Nothing || !Decidable(old(table), id, tenant) ==>
        && r == Err(if mishap != Nothing then DriverFailed else MissingDecidedOrForeign)
        && table == old(table) && gauge == old(gauge)
      ensures mishap == Nothing && Decidable(old(table), id, tenant) ==>
        && r.Ok? && DecidedBy(old(table)[id], r.value, ruling) && table == old(table)[id := r.value]
        && gauge == old(gauge)[tenant := (if tenant in old(gauge) then old(gauge)[tenant] else 0) - 1]
      ensures owed == old(owed) && holder == Free && idle == old(idle)[1..] + old(idle)[..1]
    {
      var reply := TenantScoped(op, tenant, UpdateRow(id, ruling), mishap);
      if reply == Failed {
        return Err(DriverFailed);
      }
      if reply.row.None? {
        return Err(MissingDecidedOrForeign);
      }
      MoveGauge(op, tenant, -1);
      return Ok(reply.row.value);
    }

    method Get(op: nat, id: string, tenant: string, mishap: Mishap) returns (r: Result<Option<Record>, Error>)
      requires holder == Free && idle != [] && op !in owed
      modifies this
      ensures r == if mishap != Nothing then Err(DriverFailed) else Ok(Fetch(table, id, tenant))
      ensures table == old(table) && gauge == old(gauge) && owed == old(owed) && holder == Free
      ensures idle == old(idle)[1..] + old(idle)[..1]
    {
      var reply := TenantScoped(op, tenant, SelectOne(id), mishap);
      r := if reply == Failed then Err(DriverFailed) else Ok(reply.row);
    }

    method ListPending(op: nat, tenant: string, mishap: Mishap) returns (r: Result<seq<Record>, Error>)
      requires holder == Free && idle != [] && op !in owed
      modifies this
      ensures mishap != Nothing ==> r == Err(DriverFailed)
      ensures mishap == Nothing ==> r.Ok? && Lists(r.value, PendingRows(table, tenant))
      ensures table == old(table) && gauge == old(gauge) && owed == old(owed) && holder == Free
      ensures idle == old(idle)[1..] + old(idle)[..1]
    {
      var reply := TenantScoped(op, tenant, SelectPending, mishap);
      if reply == Failed {
        return Err(DriverFailed);
      }
      var rows := OrderByCreation(reply.rows);
      r := Ok(rows);
    }
  }
}
