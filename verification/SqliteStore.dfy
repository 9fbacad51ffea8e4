/** The SQLite approval store: each call is a locked statement, a separate locked read-back, then a gauge update. */
module SqliteStore {
  import opened Wrappers
  import opened ApprovalCore

  /** Where a call stands between its lock sections. */
  datatype Call =
    | Created(row: Record)
    | Decided(row: Record)
    | ReadBack(row: Record)

  datatype State = State(core: Core, calls: map<nat, Call>)

  datatype Event =
    | InsertRow(op: nat, row: Record)
    | UpdateRow(op: nat, id: string, tenant: string, ruling: Ruling)
    | SelectOwn(op: nat)
    | Report(op: nat)

  predicate CanInsert(s: State, op: nat, row: Record) {
    op !in s.calls && op !in s.core.owed && row.id !in s.core.table && Fresh(row)
  }

  predicate CanUpdate(s: State, op: nat, id: string, tenant: string) {
    op !in s.calls && op !in s.core.owed && Decidable(s.core.table, id, tenant)
  }

  /** The change an event makes to the shared table and gauge. */
  function Effect(s: State, e: Event): Change {
    match e
    case InsertRow(op, row) => if CanInsert(s, op, row) then Insert(op, row) else Stutter
    case UpdateRow(op, id, tenant, ruling) =>
      if CanUpdate(s, op, id, tenant) then Decide(op, id, tenant, ruling) else Stutter
    case SelectOwn(op) => Stutter
    case Report(op) => if op in s.calls && s.calls[op].ReadBack? then Settle(op) else Stutter
  }

  /** One lock section, or one gauge update. A refused statement, or a step out of turn, changes nothing. */
  function Step(s: State, e: Event): State {
    var core := Apply(s.core, Effect(s, e));
    match e
    case InsertRow(op, row) =>
      if CanInsert(s, op, row) then State(core, s.calls[op := Created(row)]) else s
    case UpdateRow(op, id, tenant, ruling) =>
      if CanUpdate(s, op, id, tenant) then State(core, s.calls[op := Decided(core.table[id])]) else s
    case SelectOwn(op) =>
      if op in s.calls && !s.calls[op].ReadBack? then
        match Fetch(s.core.table, s.calls[op].row.id, s.calls[op].row.tenant)
        case Some(found) => s.(calls := s.calls[op := ReadBack(found)])
        case None => s.(calls := s.calls - {op})
      else s
    case Report(op) =>
      if op in s.calls && s.calls[op].ReadBack? then State(core, s.calls - {op}) else s
  }

  function Run(s: State, events: seq<Event>): State {
    if events == [] then s else Step(Run(s, events[..|events| - 1]), events[|events| - 1])
  }

  ghost predicate CallOk(s: State, op: nat)
    requires op in s.calls
  {
    var row := s.calls[op].row;
    && op in s.core.owed
    && s.core.owed[op].tenant == row.tenant
    && row.id in s.core.table
    && SameIdentity(row, s.core.table[row.id])
    && (s.calls[op].Decided? ==> row.status != Pending)
    && (row.status != Pending ==> s.core.table[row.id] == row)
  }

  ghost predicate Inv(s: State) {
    && WellFormed(s.core.table)
    && s.calls.Keys == s.core.owed.Keys
    && forall op :: op in s.calls ==> CallOk(s, op)
  }

  const INITIAL := State(EMPTY, map[])

  lemma OthersKeepTheirRows(s: State, s': State, op: nat)
    requires op in s.calls && CallOk(s, op) && Evolves(s.core.table, s'.core.table)
    requires op in s'.calls && s'.calls[op] == s.calls[op]
    requires op in s'.core.owed && s'.core.owed[op] == s.core.owed[op]
    ensures CallOk(s', op)
  {
  }

  lemma StepRefines(s: State, e: Event)
    ensures Step(s, e).core == Apply(s.core, Effect(s, e))
  {
  }

  lemma StepTouchesOwnCallOnly(s: State, e: Event, op: nat)
    requires op != e.op
    ensures op in Step(s, e).calls <==> op in s.calls
    ensures op in s.calls ==> Step(s, e).calls[op] == s.calls[op]
    ensures op in Step(s, e).core.owed <==> op in s.core.owed
    ensures op in s.core.owed ==> Step(s, e).core.owed[op] == s.core.owed[op]
  {
  }

  lemma OwnCallOk(s: State, e: Event)
    requires Inv(s)
    ensures e.op in Step(s, e).calls <==> e.op in Step(s, e).core.owed
    ensures e.op in Step(s, e).calls ==> CallOk(Step(s, e), e.op)
  {
    if e.op in s.calls {
      assert CallOk(s, e.op);
    }
  }

  lemma StepKeepsInv(s: State, e: Event)
    requires Inv(s)
    ensures Inv(Step(s, e))
  {
    var s' := Step(s, e);
    assert Evolves(s.core.table, s'.core.table) && WellFormed(s'.core.table) by {
      StepRefines(s, e);
      ChangeEvolves(s.core, Effect(s, e));
    }
    forall op ensures (op in s'.calls <==> op in s'.core.owed) && (op in s'.calls ==> CallOk(s', op)) {
      if op == e.op {
        OwnCallOk(s, e);
      } else {
        StepTouchesOwnCallOnly(s, e, op);
        if op in s.calls {
          OthersKeepTheirRows(s, s', op);
        }
      }
    }
  }

  lemma {:induction false} RunKeepsInv(s: State, events: seq<Event>)
    requires Inv(s)
    ensures Inv(Run(s, events))
  {
    if events != [] {
      RunKeepsInv(s, events[..|events| - 1]);
      StepKeepsInv(Run(s, events[..|events| - 1]), events[|events| - 1]);
    }
  }

  /** The changes a run makes to the shared table and gauge. */
  function Changes(s: State, events: seq<Event>): seq<Change> {
    if events == [] then []
    else
      var n := |events| - 1;
      Changes(s, events[..n]) + [Effect(Run(s, events[..n]), events[n])]
  }

  lemma {:induction false} RunRefinesCore(s: State, events: seq<Event>)
    requires Inv(s)
    ensures Run(s, events).core == ApprovalCore.Run(s.core, Changes(s, events))
  {
    if events != [] {
      var n := |events| - 1;
      RunRefinesCore(s, events[..n]);
      RunKeepsInv(s, events[..n]);
      StepRefines(Run(s, events[..n]), events[n]);
      var init := Changes(s, events[..n]);
      assert Changes(s, events)[..|init|] == init;
    }
  }

  /** In any interleaving, a decision's read-back finds the row exactly as this call decided it,
      and a creation's read-back finds its own row, though another call may have decided it. */
  lemma ReadBackFindsOwnRow(events: seq<Event>, op: nat)
    requires op in Run(INITIAL, events).calls
    ensures
      var s := Run(INITIAL, events);
      var row := s.calls[op].row;
      match Fetch(s.core.table, row.id, row.tenant)
      case None => false
      case Some(found) => SameIdentity(row, found) && (s.calls[op].Decided? ==> found == row)
  {
    RunKeepsInv(INITIAL, events);
    assert CallOk(Run(INITIAL, events), op);
  }

  /** With no call in flight the gauge of each tenant counts its pending rows. */
  lemma QuiescentGauge(events: seq<Event>, tenant: string)
    requires Run(INITIAL, events).calls == map[]
    ensures
      var core := Run(INITIAL, events).core;
      Gauge(core, tenant) == |PendingIds(core.table, tenant)|
  {
    RunKeepsInv(INITIAL, events);
    RunRefinesCore(INITIAL, events);
    GaugeCountsPending(Changes(INITIAL, events), tenant);
  }

  // ---- Decisions, over a run ----

  lemma StepEvolves(s: State, e: Event)
    requires WellFormed(s.core.table)
    ensures Evolves(s.core.table, Step(s, e).core.table) && WellFormed(Step(s, e).core.table)
  {
    StepRefines(s, e);
    ChangeEvolves(s.core, Effect(s, e));
  }

  /** Between any two moments of any run rows stay, keep their identity and, once decided, never change. */
  lemma {:induction false} RowsEvolve(events: seq<Event>, n: nat)
    requires n <= |events|
    ensures Evolves(Run(INITIAL, events[..n]).core.table, Run(INITIAL, events).core.table)
    ensures WellFormed(Run(INITIAL, events).core.table)
  {
    RunKeepsInv(INITIAL, events);
    if n == |events| {
      assert events[..n] == events;
    } else {
      var m := |events| - 1;
      RowsEvolve(events[..m], n);
      assert events[..m][..n] == events[..n];
      StepEvolves(Run(INITIAL, events[..m]), events[m]);
      EvolvesTransitive(Run(INITIAL, events[..n]).core.table, Run(INITIAL, events[..m]).core.table,
                        Run(INITIAL, events).core.table);
    }
  }

  /** The event is a decide call on id that succeeds. */
  predicate Decides(s: State, e: Event, id: string) {
    e.UpdateRow? && e.id == id && CanUpdate(s, e.op, e.id, e.tenant)
  }

  /** Once a decide call on an approval has succeeded, every later one in the run is refused. */
  lemma OneDecisionWins(events: seq<Event>, i: nat, j: nat, id: string)
    requires i < j < |events| && Decides(Run(INITIAL, events[..i]), events[i], id)
    ensures !Decides(Run(INITIAL, events[..j]), events[j], id)
  {
    assert events[..i + 1][..i] == events[..i];
    assert events[..j][..i + 1] == events[..i + 1];
    RowsEvolve(events[..j], i + 1);
  }

  /** The row a successful decide call changes stays, for the rest of the run, exactly as that call decided it. */
  lemma DecisionStands(events: seq<Event>, i: nat, n: nat, id: string)
    requires i < n <= |events| && Decides(Run(INITIAL, events[..i]), events[i], id)
    ensures
      var was, now := Run(INITIAL, events[..i]).core.table, Run(INITIAL, events[..n]).core.table;
      && id in was && id in now && DecidedBy(was[id], now[id], events[i].ruling)
      && (now[id].status == Approved <==> events[i].ruling.decision == Approve)
  {
    hide Run;
    RunStep(events, i);
    assert events[..n][..i + 1] == events[..i + 1];
    RowsEvolve(events[..n], i + 1);
    ApprovalCore.DecisionStands(Run(INITIAL, events[..i]).core.table, Run(INITIAL, events[..n]).core.table, id,
                                events[i].tenant, events[i].ruling);
  }

  lemma RunStep(events: seq<Event>, m: nat)
    requires m < |events|
    ensures Run(INITIAL, events[..m + 1]) == Step(Run(INITIAL, events[..m]), events[m])
  {
    hide Step;
    assert events[..m + 1][..m] == events[..m];
  }

  /** Step k is a creation that succeeds. */
  ghost predicate Inserts(events: seq<Event>, k: nat, row: Record)
    requires k < |events|
  {
    && events[k].InsertRow? && events[k].row == row
    && CanInsert(Run(INITIAL, events[..k]), events[k].op, row)
  }

  ghost predicate DecidedAt(events: seq<Event>, m: nat, id: string) {
    m < |events| && Decides(Run(INITIAL, events[..m]), events[m], id)
  }

  ghost predicate DecidedBetween(events: seq<Event>, k: nat, n: nat, id: string) {
    exists m :: k < m < n && DecidedAt(events, m, id)
  }

  lemma InsertStep(events: seq<Event>, k: nat, row: Record)
    requires k < |events| && Inserts(events, k, row)
    ensures
      var table := Run(INITIAL, events[..k + 1]).core.table;
      row.id in table && table[row.id] == row && row.status == Pending
  {
    assert events[..k + 1][..k] == events[..k];
  }

  lemma LaterStep(events: seq<Event>, m: nat, id: string)
    requires m < |events| && id in Run(INITIAL, events[..m]).core.table
    ensures
      var table, after := Run(INITIAL, events[..m]).core.table, Run(INITIAL, events[..m + 1]).core.table;
      id in after && if DecidedAt(events, m, id) then table[id].status == Pending && after[id].status != Pending
                     else after[id] == table[id]
  {
    assert events[..m + 1][..m] == events[..m];
  }

  /** From its creation on, a row is exactly as created until a decide call on it succeeds, and never after. */
  lemma {:induction false} PendingUntilDecided(events: seq<Event>, k: nat, n: nat, row: Record)
    requires k < n <= |events| && Inserts(events, k, row)
    ensures
      var table := Run(INITIAL, events[..n]).core.table;
      && row.id in table
      && (table[row.id] == row <==> !DecidedBetween(events, k, n, row.id))
      && (table[row.id] == row <==> table[row.id].status == Pending)
  {
    hide Run, DecidedAt, DecidedBetween, Inserts;
    InsertStep(events, k, row);
    OneStepLater(events, k, n - 1, row.id);
    if n > k + 1 {
      PendingUntilDecided(events, k, n - 1, row);
      LaterStep(events, n - 1, row.id);
    }
  }

  lemma OneStepLater(events: seq<Event>, k: nat, n: nat, id: string)
    requires k <= n
    ensures DecidedBetween(events, k, n + 1, id)
       <==> DecidedBetween(events, k, n, id) || (k < n && DecidedAt(events, n, id))
    ensures !DecidedBetween(events, k, k, id)
  {
    hide DecidedAt;
    if k < n && DecidedAt(events, n, id) {
      assert k < n < n + 1;
    }
  }

  /** What a creation returns, in any interleaving: its own row, still pending and as created, exactly when no
      decide call on it succeeded between its insert at step k and its read-back at step n. */
  lemma CreationReturnsPendingExactly(events: seq<Event>, k: nat, n: nat, op: nat, row: Record)
    requires k < n < |events| && Inserts(events, k, row) && events[n] == SelectOwn(op)
    requires var s := Run(INITIAL, events[..n]); op in s.calls && s.calls[op] == Created(row)
    ensures
      var s := Run(INITIAL, events[..n + 1]);
      && op in s.calls && s.calls[op].ReadBack? && SameIdentity(row, s.calls[op].row)
      && (s.calls[op].row == row <==> !DecidedBetween(events, k, n, row.id))
      && (s.calls[op].row.status == Pending <==> s.calls[op].row == row)
  {
    hide DecidedBetween, Inserts;
    assert events[..n + 1][..n] == events[..n];
    RunKeepsInv(INITIAL, events[..n]);
    PendingUntilDecided(events, k, n, row);
    assert CallOk(Run(INITIAL, events[..n]), op);
  }

  /** A creation can return a row that is no longer pending: a decision fits between its two lock sections. */
  lemma CreationMayReturnDecidedRow(row: Record, ruling: Ruling)
    requires Fresh(row)
    ensures
      var s := Run(INITIAL, [InsertRow(0, row), UpdateRow(1, row.id, row.tenant, ruling), SelectOwn(0)]);
      0 in s.calls && s.calls[0] == ReadBack(Ruled(row, ruling))
  {
    var events := [InsertRow(0, row), UpdateRow(1, row.id, row.tenant, ruling), SelectOwn(0)];
    assert events[..2][..1] == events[..1] && events[..1][..0] == [];
    assert Run(INITIAL, events[..1]) == Step(INITIAL, events[0]);
    assert Run(INITIAL, events[..2]) == Step(Step(INITIAL, events[0]), events[1]);
    assert Run(INITIAL, events) == Step(Run(INITIAL, events[..2]), events[2]);
  }

  // ---- The store object, one call at a time ----

  datatype Error = NotPersisted | MissingDecidedOrForeign

  class SQLiteApprovalStore {
    var table: Table
    var gauge: map<string, int>
    ghost var owed: map<nat, Debt>
    ghost var calls: map<nat, Call>

    ghost function Snapshot(): State
      reads this
    {
      State(Core(table, gauge, owed), calls)
    }

    constructor ()
      ensures Snapshot() == INITIAL
    {
      table, gauge, owed, calls := map[], map[], map[], map[];
    }

    method InsertLocked(ghost op: nat, row: Record) returns (inserted: bool)
      requires Fresh(row) && op !in calls && op !in owed
      modifies this
      ensures inserted == (row.id !in old(table))
      ensures Snapshot() == Step(old(Snapshot()), InsertRow(op, row))
    {
      inserted := row.id !in table;
      if inserted {
        table := table[row.id := row];
        owed, calls := owed[op := Increment(row.tenant)], calls[op := Created(row)];
      }
    }

    /** The conditional UPDATE; its row count says whether it changed a row. */
    method UpdateLocked(ghost op: nat, id: string, tenant: string, ruling: Ruling) returns (rowcount: nat)
      requires op !in calls && op !in owed
      modifies this
      ensures rowcount == if Decidable(old(table), id, tenant) then 1 else 0
      ensures rowcount == 0 ==> table == old(table)
      ensures rowcount == 1 ==>
        id in table && DecidedBy(old(table)[id], table[id], ruling) && table == old(table)[id := table[id]]
      ensures Snapshot() == Step(old(Snapshot()), UpdateRow(op, id, tenant, ruling))
    {
      rowcount := 0;
      if id in table && table[id].status == Pending && table[id].tenant == tenant {
        table := table[id := Ruled(table[id], ruling)];
        owed, calls := owed[op := Decrement(tenant)], calls[op := Decided(table[id])];
        rowcount := 1;
      }
    }

    method ReadOwn(ghost op: nat, id: string, tenant: string) returns (r: Option<Record>)
      requires op in calls && !calls[op].ReadBack? && calls[op].row.id == id && calls[op].row.tenant == tenant
      modifies this`calls
      ensures r == Fetch(table, id, tenant)
      ensures Snapshot() == Step(old(Snapshot()), SelectOwn(op))
    {
      r := Get(id, tenant);
      calls := if r.Some? then calls[op := ReadBack(r.value)] else calls - {op};
    }

    method MoveGauge(ghost op: nat, tenant: string, change: int)
      requires op in calls && calls[op].ReadBack? && op in owed && owed[op].tenant == tenant
      requires change == if owed[op].Increment? then 1 else -1
      modifies this
      ensures Snapshot() == Step(old(Snapshot()), Report(op))
    {
      gauge := gauge[tenant := (if tenant in gauge then gauge[tenant] else 0) + change];
      owed, calls := owed - {op}, calls - {op};
    }

    method CreatePending(ghost op: nat, row: Record) returns (r: Result<Record, Error>)
      requires Inv(Snapshot()) && Fresh(row) && op !in calls
      modifies this
      ensures row.id in old(table) ==> r == Err(NotPersisted) && Snapshot() == old(Snapshot())
      ensures row.id !in old(table) ==> r == Ok(row)
      ensures row.id !in old(table) ==>
        Snapshot() == Step(Step(Step(old(Snapshot()), InsertRow(op, row)), SelectOwn(op)), Report(op))
    {
      var inserted := InsertLocked(op, row);
      if !inserted {
        return Err(NotPersisted);
      }
      var found := ReadOwn(op, row.id, row.tenant);
      if found.None? {
        return Err(NotPersisted);
      }
      MoveGauge(op, found.value.tenant, 1);
      return Ok(found.value);
    }

    method DecidePending(ghost op: nat, id: string, tenant: string, ruling: Ruling) returns (r: Result<Record, Error>)
      requires Inv(Snapshot()) && op !in calls
      modifies this
      ensures !Decidable(old(table), id, tenant) ==> r == Err(MissingDecidedOrForeign) && Snapshot() == old(Snapshot())
      ensures Decidable(old(table), id, tenant) ==>
        r.Ok? && DecidedBy(old(table)[id], r.value, ruling) && table == old(table)[id := r.value]
      ensures Decidable(old(table), id, tenant) ==>
        Snapshot() == Step(Step(Step(old(Snapshot()), UpdateRow(op, id, tenant, ruling)), SelectOwn(op)), Report(op))
    {
      assert id in table ==> table[id].id == id;
      var rowcount := UpdateLocked(op, id, tenant, ruling);
      if rowcount != 1 {
        return Err(MissingDecidedOrForeign);
      }
      var found := ReadOwn(op, id, tenant);
      if found.None? {
        return Err(NotPersisted);
      }
      MoveGauge(op, found.value.tenant, -1);
      return Ok(found.value);
    }

    method Get(id: string, tenant: string) returns (r: Option<Record>)
      ensures r == Fetch(table, id, tenant)
    {
      if id in table && table[id].tenant == tenant {
        return Some(table[id]);
      }
      return None;
    }

    method ListPending(tenant: string) returns (rows: seq<Record>)
      ensures Lists(rows, PendingRows(table, tenant))
    {
      rows := SelectPending(table, tenant);
    }
  }
}
