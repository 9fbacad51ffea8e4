/** The Redis approval store: every call is several separate commands, and a per-tenant index set
    is kept beside the records without ever being updated atomically with them. */
module RedisStore {
  import opened Wrappers
  import opened ApprovalCore

  /** A listing under way: the ids it still has to GET, the rows it has, and how things stood when it began. */
  datatype Listing = Listing(
    tenant: string, members: set<string>, todo: set<string>, rows: set<Record>,
    began: Table, creating: set<string>)

  /** Where a call stands between its commands. */
  datatype Call =
    | Adding(row: Record)
    | Removing(row: Record)
    | Reporting
    | Scanning(scan: Listing)

  datatype State = State(core: Core, index: map<string, set<string>>, calls: map<nat, Call>)

  datatype Event =
    | SetNx(op: nat, row: Record)
    | Sadd(op: nat)
    | Eval(op: nat, id: string, tenant: string, ruling: Ruling)
    | Srem(op: nat)
    | Report(op: nat)
    | Smembers(op: nat, tenant: string)
    | GetNext(op: nat, id: string)
    | Finish(op: nat)

  function Members(index: map<string, set<string>>, tenant: string): set<string> {
    if tenant in index then index[tenant] else {}
  }

  /** Ids whose creation has stored the record but not yet indexed it. */
  function Creating(calls: map<nat, Call>): set<string> {
    set op | op in calls && calls[op].Adding? :: calls[op].row.id
  }

  predicate Idle(s: State, op: nat) {
    op !in s.calls && op !in s.core.owed
  }

  predicate CanSet(s: State, op: nat, row: Record) {
    Idle(s, op) && row.id !in s.core.table && Fresh(row)
  }

  /** The decision script: missing, already decided and foreign records are all refused. */
  predicate CanEval(s: State, op: nat, id: string, tenant: string) {
    Idle(s, op) && Decidable(s.core.table, id, tenant)
  }

  function Effect(s: State, e: Event): Change {
    match e
    case SetNx(op, row) => if CanSet(s, op, row) then Insert(op, row) else Stutter
    case Eval(op, id, tenant, ruling) =>
      if CanEval(s, op, id, tenant) then Decide(op, id, tenant, ruling) else Stutter
    case Report(op) => if op in s.calls && s.calls[op] == Reporting then Settle(op) else Stutter
    case _ => Stutter
  }

  function ScanOne(scan: Listing, table: Table, id: string): Listing {
    match Fetch(table, id, scan.tenant)
    case Some(row) =>
      scan.(todo := scan.todo - {id}, rows := if row.status == Pending then scan.rows + {row} else scan.rows)
    case None => scan.(todo := scan.todo - {id})
  }

  /** One command of one call. A refused command, or a step out of turn, changes nothing. */
  function Step(s: State, e: Event): State {
    var core := Apply(s.core, Effect(s, e));
    match e
    case SetNx(op, row) =>
      if CanSet(s, op, row) then State(core, s.index, s.calls[op := Adding(row)]) else s
    case Sadd(op) =>
      if op in s.calls && s.calls[op].Adding? then
        var row := s.calls[op].row;
        State(core, s.index[row.tenant := Members(s.index, row.tenant) + {row.id}], s.calls[op := Reporting])
      else s
    case Eval(op, id, tenant, ruling) =>
      if CanEval(s, op, id, tenant) then State(core, s.index, s.calls[op := Removing(core.table[id])]) else s
    case Srem(op) =>
      if op in s.calls && s.calls[op].Removing? then
        var row := s.calls[op].row;
        State(core, s.index[row.tenant := Members(s.index, row.tenant) - {row.id}], s.calls[op := Reporting])
      else s
    case Report(op) =>
      if op in s.calls && s.calls[op] == Reporting then State(core, s.index, s.calls - {op}) else s
    case Smembers(op, tenant) =>
      if Idle(s, op) then
        var members := Members(s.index, tenant);
        State(core, s.index, s.calls[op := Scanning(
          Listing(tenant, members, members, {}, s.core.table, Creating(s.calls)))])
      else s
    case GetNext(op, id) =>
      if op in s.calls && s.calls[op].Scanning? && id in s.calls[op].scan.todo then
        State(core, s.index, s.calls[op := Scanning(ScanOne(s.calls[op].scan, s.core.table, id))])
      else s
    case Finish(op) =>
      if op in s.calls && s.calls[op].Scanning? && s.calls[op].scan.todo == {} then
        State(core, s.index, s.calls - {op})
      else s
  }

  function Run(s: State, events: seq<Event>): State {
    if events == [] then s else Step(Run(s, events[..|events| - 1]), events[|events| - 1])
  }

  const INITIAL := State(EMPTY, map[], map[])

  // ---- The invariant ----

  ghost predicate ScanOk(table: Table, scan: Listing) {
    && WellFormed(scan.began) && Evolves(scan.began, table)
    && scan.todo <= scan.members
    && (forall id :: id in scan.members ==> id in scan.began && scan.began[id].tenant == scan.tenant)
    && (forall r :: r in scan.rows ==>
          r.status == Pending && r.tenant == scan.tenant && r.id in scan.began && scan.began[r.id] == r)
    && (forall id :: id in scan.members && id !in scan.todo && id in table && table[id].status == Pending ==>
          table[id] in scan.rows)
    && (forall id :: id in PendingIds(scan.began, scan.tenant) ==> id in scan.members || id in scan.creating)
  }

  ghost predicate CallOk(core: Core, op: nat, call: Call) {
    match call
    case Adding(row) =>
      op in core.owed && row.id in core.table && core.table[row.id].tenant == row.tenant
    case Removing(row) =>
      op in core.owed && row.id in core.table && core.table[row.id] == row && row.status != Pending
    case Reporting => op in core.owed
    case Scanning(scan) => op !in core.owed && ScanOk(core.table, scan)
  }

  /** An indexed id names a record of the index's tenant. */
  ghost predicate IndexSound(table: Table, index: map<string, set<string>>) {
    forall t, id :: id in Members(index, t) ==> id in table && table[id].tenant == t
  }

  /** A pending record is indexed, unless its creation is still under way. */
  ghost predicate IndexComplete(table: Table, index: map<string, set<string>>, calls: map<nat, Call>) {
    forall id :: id in table && table[id].status == Pending ==>
      id in Members(index, table[id].tenant) || id in Creating(calls)
  }

  ghost predicate Inv(s: State) {
    && WellFormed(s.core.table)
    && IndexSound(s.core.table, s.index)
    && IndexComplete(s.core.table, s.index, s.calls)
    && (forall op :: op in s.calls ==> CallOk(s.core, op, s.calls[op]))
    && (forall op :: op in s.core.owed ==> op in s.calls)
  }

  lemma StepRefines(s: State, e: Event)
    ensures Step(s, e).core == Apply(s.core, Effect(s, e))
  {
  }

  lemma StepEvolves(s: State, e: Event)
    requires WellFormed(s.core.table)
    ensures Evolves(s.core.table, Step(s, e).core.table) && WellFormed(Step(s, e).core.table)
  {
    StepRefines(s, e);
    ChangeEvolves(s.core, Effect(s, e));
  }

  lemma StepTouchesOwnCallOnly(s: State, e: Event, op: nat)
    requires op != e.op
    ensures op in Step(s, e).calls <==> op in s.calls
    ensures op in s.calls ==> Step(s, e).calls[op] == s.calls[op]
    ensures op in Step(s, e).core.owed <==> op in s.core.owed
  {
  }

  lemma ScanSurvives(before: Table, after: Table, scan: Listing)
    requires WellFormed(before) && WellFormed(after) && Evolves(before, after) && ScanOk(before, scan)
    ensures ScanOk(after, scan)
  {
    EvolvesTransitive(scan.began, before, after);
    forall id | id in scan.members && id !in scan.todo && id in after && after[id].status == Pending
      ensures after[id] in scan.rows
    {
      PendingWasPending(before, after, id);
    }
  }

  lemma ScanOneOk(table: Table, scan: Listing, id: string)
    requires WellFormed(table) && ScanOk(table, scan) && id in scan.todo
    ensures ScanOk(table, ScanOne(scan, table, id))
  {
    assert id in scan.began;
    if table[id].status == Pending {
      PendingWasPending(scan.began, table, id);
    }
  }

  lemma OwnCallOk(s: State, e: Event)
    requires Inv(s)
    ensures e.op in Step(s, e).core.owed ==> e.op in Step(s, e).calls
    ensures e.op in Step(s, e).calls ==> CallOk(Step(s, e).core, e.op, Step(s, e).calls[e.op])
  {
    if e.op in s.calls {
      assert CallOk(s.core, e.op, s.calls[e.op]);
      if e.GetNext? && s.calls[e.op].Scanning? && e.id in s.calls[e.op].scan.todo {
        ScanOneOk(s.core.table, s.calls[e.op].scan, e.id);
      }
    } else if e.Smembers? && Idle(s, e.op) {
      SmembersOk(s, e.op, e.tenant);
    }
  }

  lemma SmembersOk(s: State, op: nat, tenant: string)
    requires Inv(s)
    ensures ScanOk(s.core.table,
      Listing(tenant, Members(s.index, tenant), Members(s.index, tenant), {}, s.core.table, Creating(s.calls)))
  {
    forall id | id in PendingIds(s.core.table, tenant)
      ensures id in Members(s.index, tenant) || id in Creating(s.calls)
    {
    }
  }

  lemma NewlyIndexed(s: State, e: Event, t: string, id: string)
    requires Inv(s) && id in Members(Step(s, e).index, t) && id !in Members(s.index, t)
    ensures id in s.core.table && s.core.table[id].tenant == t
  {
    hide ScanOk, Apply, WellFormed;
    assert CallOk(s.core, e.op, s.calls[e.op]);
  }

  lemma IndexStaysSound(s: State, e: Event)
    requires Inv(s)
    ensures IndexSound(Step(s, e).core.table, Step(s, e).index)
  {
    hide ScanOk, Step;
    var s' := Step(s, e);
    forall t, id | id in Members(s'.index, t) ensures id in s'.core.table && s'.core.table[id].tenant == t {
      StepEvolves(s, e);
      if id !in Members(s.index, t) {
        NewlyIndexed(s, e, t, id);
      }
    }
  }

  /** A call that is still adding its id keeps that id among those being created. */
  lemma CreatingShrinksOnlyBySadd(s: State, e: Event, id: string)
    requires id in Creating(s.calls)
    ensures id in Creating(Step(s, e).calls) ||
      (e.Sadd? && e.op in s.calls && s.calls[e.op].Adding? && s.calls[e.op].row.id == id)
  {
    var op :| op in s.calls && s.calls[op].Adding? && s.calls[op].row.id == id;
    if op != e.op {
      StepTouchesOwnCallOnly(s, e, op);
    }
    assert op in Step(s, e).calls ==> Step(s, e).calls[op] == s.calls[op] || e.Sadd?;
  }

  /** Only the record a finished decision settled leaves the index, and it is not pending. */
  lemma IndexKeepsPending(s: State, e: Event, id: string)
    requires Inv(s) && id in s.core.table && s.core.table[id].status == Pending
    requires id in Members(s.index, s.core.table[id].tenant)
    ensures id in Members(Step(s, e).index, s.core.table[id].tenant)
  {
    hide ScanOk, Apply, WellFormed;
    if e.op in s.calls {
      assert CallOk(s.core, e.op, s.calls[e.op]);
    }
  }

  lemma AddedIsIndexed(s: State, e: Event, id: string)
    requires Inv(s) && id in s.core.table && id in Creating(s.calls)
    ensures id in Members(Step(s, e).index, s.core.table[id].tenant) || id in Creating(Step(s, e).calls)
  {
    hide ScanOk, Apply, WellFormed;
    CreatingShrinksOnlyBySadd(s, e, id);
    if e.op in s.calls {
      assert CallOk(s.core, e.op, s.calls[e.op]);
    }
  }

  lemma InsertedIsCreating(s: State, e: Event, id: string)
    requires id !in s.core.table && id in Step(s, e).core.table
    ensures id in Creating(Step(s, e).calls)
  {
    assert e.SetNx? && Step(s, e).calls[e.op] == Adding(e.row) && e.row.id == id;
  }

  lemma PendingStaysFindable(s: State, e: Event, id: string)
    requires Inv(s) && id in Step(s, e).core.table && Step(s, e).core.table[id].status == Pending
    ensures id in Members(Step(s, e).index, Step(s, e).core.table[id].tenant) || id in Creating(Step(s, e).calls)
  {
    StepEvolves(s, e);
    hide Step;
    if id in s.core.table {
      if id in Creating(s.calls) {
        AddedIsIndexed(s, e, id);
      } else {
        IndexKeepsPending(s, e, id);
      }
    } else {
      InsertedIsCreating(s, e, id);
    }
  }

  lemma IndexStaysComplete(s: State, e: Event)
    requires Inv(s)
    ensures IndexComplete(Step(s, e).core.table, Step(s, e).index, Step(s, e).calls)
  {
    hide Step, Inv, Creating;
    var table' := Step(s, e).core.table;
    forall id | id in table' && table'[id].status == Pending
      ensures id in Members(Step(s, e).index, table'[id].tenant) || id in Creating(Step(s, e).calls)
    {
      PendingStaysFindable(s, e, id);
    }
  }

  lemma StepKeepsInv(s: State, e: Event)
    requires Inv(s)
    ensures Inv(Step(s, e))
  {
    var s' := Step(s, e);
    StepEvolves(s, e);
    IndexStaysSound(s, e);
    IndexStaysComplete(s, e);
    forall op
      ensures op in s'.calls ==> CallOk(s'.core, op, s'.calls[op])
      ensures op in s'.core.owed ==> op in s'.calls
    {
      if op == e.op {
        OwnCallOk(s, e);
      } else {
        StepTouchesOwnCallOnly(s, e, op);
        if op in s.calls {
          OthersStayOk(s, e, op);
        }
      }
    }
  }

  lemma OthersStayOk(s: State, e: Event, op: nat)
    requires Inv(s) && op != e.op && op in s.calls
    ensures CallOk(Step(s, e).core, op, s.calls[op])
  {
    StepEvolves(s, e);
    StepTouchesOwnCallOnly(s, e, op);
    assert CallOk(s.core, op, s.calls[op]);
    if s.calls[op].Scanning? {
      ScanSurvives(s.core.table, Step(s, e).core.table, s.calls[op].scan);
    }
  }

  // ---- Runs ----

  lemma {:induction false} RunKeepsInv(s: State, events: seq<Event>)
    requires Inv(s)
    ensures Inv(Run(s, events))
  {
    if events != [] {
      RunKeepsInv(s, events[..|events| - 1]);
      StepKeepsInv(Run(s, events[..|events| - 1]), events[|events| - 1]);
    }
  }

  function Changes(s: State, events: seq<Event>): seq<Change> {
    if events == [] then []
    else
      var n := |events| - 1;
      Changes(s, events[..n]) + [Effect(Run(s, events[..n]), events[n])]
  }

  lemma {:induction false} RunRefinesCore(s: State, events: seq<Event>)
    ensures Run(s, events).core == ApprovalCore.Run(s.core, Changes(s, events))
  {
    if events != [] {
      var n := |events| - 1;
      RunRefinesCore(s, events[..n]);
      StepRefines(Run(s, events[..n]), events[n]);
      var init := Changes(s, events[..n]);
      assert Changes(s, events)[..|init|] == init;
    }
  }

  /** In every interleaving the index names only its tenant's records, and every pending record
      whose creation got past the index update is in its tenant's index. */
  lemma IndexAgreesInEveryRun(events: seq<Event>)
    ensures
      var s := Run(INITIAL, events);
      && IndexSound(s.core.table, s.index)
      && IndexComplete(s.core.table, s.index, s.calls)
  {
    RunKeepsInv(INITIAL, events);
  }

  /** The scan opened by step k is still the one under way at step n. */
  ghost predicate Scans(events: seq<Event>, k: nat, n: nat, op: nat, tenant: string) {
    && k < n <= |events|
    && events[k] == Smembers(op, tenant) && Idle(Run(INITIAL, events[..k]), op)
    && forall m :: k < m <= n ==> op in Run(INITIAL, events[..m]).calls
  }

  lemma SmembersStartsScan(s: State, op: nat, tenant: string)
    requires Idle(s, op)
    ensures
      var t := Step(s, Smembers(op, tenant));
      && op in t.calls && t.calls[op].Scanning? && t.calls[op].scan.tenant == tenant
      && t.calls[op].scan.began == s.core.table && t.calls[op].scan.creating == Creating(s.calls)
  {
  }

  lemma StepKeepsScanStart(s: State, e: Event, op: nat)
    requires op in s.calls && s.calls[op].Scanning? && op in Step(s, e).calls
    ensures
      var before, call := s.calls[op].scan, Step(s, e).calls[op];
      && call.Scanning? && call.scan.tenant == before.tenant
      && call.scan.began == before.began && call.scan.creating == before.creating
  {
    if e.op != op {
      StepTouchesOwnCallOnly(s, e, op);
    }
  }

  lemma {:induction false} ScanRemembersItsStart(events: seq<Event>, k: nat, n: nat, op: nat, tenant: string)
    requires Scans(events, k, n, op, tenant)
    ensures
      var s, call := Run(INITIAL, events[..k]), Run(INITIAL, events[..n]).calls[op];
      && call.Scanning? && call.scan.tenant == tenant
      && call.scan.began == s.core.table && call.scan.creating == Creating(s.calls)
  {
    hide Step;
    assert events[..n][..n - 1] == events[..n - 1];
    assert Run(INITIAL, events[..n]) == Step(Run(INITIAL, events[..n - 1]), events[n - 1]);
    hide Run;
    if n - 1 > k {
      ScanRemembersItsStart(events, k, n - 1, op, tenant);
      StepKeepsScanStart(Run(INITIAL, events[..n - 1]), events[n - 1], op);
    } else {
      SmembersStartsScan(Run(INITIAL, events[..k]), op, tenant);
    }
  }

  /** The listing that ends at step n with `Finish`, in any interleaving: every row it gathers was a pending row of the
      tenant when it began; every row of the tenant that was there, fully created, when it began and is pending now is
      gathered; and if nothing was being created and the table did not move, it is exactly the tenant's pending rows. */
  lemma ListingIsSandwiched(events: seq<Event>, k: nat, n: nat, op: nat, tenant: string)
    requires Scans(events, k, n, op, tenant) && n < |events|
    requires events[n] == Finish(op) && op !in Run(INITIAL, events[..n + 1]).calls
    ensures
      var s, t := Run(INITIAL, events[..k]), Run(INITIAL, events[..n]);
      && t.calls[op].Scanning?
      && var rows := t.calls[op].scan.rows;
      && rows <= PendingRows(s.core.table, tenant)
      && (forall id :: id in PendingIds(t.core.table, tenant) && id in s.core.table && id !in Creating(s.calls) ==>
            t.core.table[id] in rows)
      && (Creating(s.calls) == {} && s.core.table == t.core.table ==> rows == PendingRows(t.core.table, tenant))
  {
    var s, t := Run(INITIAL, events[..k]), Run(INITIAL, events[..n]);
    OneStep(events, n);
    RunKeepsInv(INITIAL, events[..n]);
    ScanRemembersItsStart(events, k, n, op, tenant);
    var scan := t.calls[op].scan;
    assert CallOk(t.core, op, t.calls[op]);
    forall r | r in scan.rows ensures r in PendingRows(s.core.table, tenant) {
      assert r.id in PendingIds(s.core.table, tenant);
    }
    forall id | id in PendingIds(t.core.table, tenant) && id in s.core.table && id !in Creating(s.calls)
      ensures t.core.table[id] in scan.rows
    {
      PendingWasPending(scan.began, t.core.table, id);
      assert id in PendingIds(scan.began, tenant);
    }
  }

  lemma GetAdvances(s: State, op: nat, id: string)
    requires op in s.calls && s.calls[op].Scanning? && id in s.calls[op].scan.todo
    ensures
      var t := Step(s, GetNext(op, id));
      op in t.calls && t.calls[op].Scanning? && t.calls[op].scan.todo == s.calls[op].scan.todo - {id}
  {
  }

  /** A listing is never stuck: one GET for each id it still has to look at, and it can finish. */
  lemma {:induction false} ListingCanFinish(s: State, op: nat) returns (events: seq<Event>)
    requires op in s.calls && s.calls[op].Scanning?
    ensures |events| == |s.calls[op].scan.todo| + 1 && op !in Run(s, events).calls
    decreases s.calls[op].scan.todo
  {
    var todo := s.calls[op].scan.todo;
    if todo == {} {
      events := [Finish(op)];
      RunFirst(s, events[0], []);
    } else {
      var id :| id in todo;
      GetAdvances(s, op, id);
      var rest := ListingCanFinish(Step(s, GetNext(op, id)), op);
      events := [GetNext(op, id)] + rest;
      RunFirst(s, GetNext(op, id), rest);
    }
  }

  lemma {:induction false} RunFirst(s: State, e: Event, rest: seq<Event>)
    ensures Run(s, [e] + rest) == Run(Step(s, e), rest)
  {
    hide Step;
    var events := [e] + rest;
    if rest == [] {
      assert events[..0] == [];
    } else {
      var n := |rest| - 1;
      assert events[..n + 1] == [e] + rest[..n];
      RunFirst(s, e, rest[..n]);
    }
  }

  /** With no call in flight the gauge of each tenant counts its pending rows. */
  lemma QuiescentGauge(events: seq<Event>, tenant: string)
    requires Run(INITIAL, events).calls == map[]
    ensures
      var core := Run(INITIAL, events).core;
      Gauge(core, tenant) == |PendingIds(core.table, tenant)|
  {
    RunKeepsInv(INITIAL, events);
    RunRefinesCore(INITIAL, events);
    assert Run(INITIAL, events).core.owed == map[];
    GaugeCountsPending(Changes(INITIAL, events), tenant);
  }

  // ---- Decisions, over a run ----

  /** Between any two moments of any run records stay, keep their identity and, once decided, never change. */
  lemma {:induction false} RowsEvolve(events: seq<Event>, n: nat)
    requires n <= |events|
    ensures Evolves(Run(INITIAL, events[..n]).core.table, Run(INITIAL, events).core.table)
    ensures WellFormed(Run(INITIAL, events).core.table)
  {
    RunKeepsInv(INITIAL, events);
    if n == |events| {
      assert events[..n] == events;
    } else {
      var m := |events| - 1;
      RowsEvolve(events[..m], n);
      assert events[..m][..n] == events[..n];
      StepEvolves(Run(INITIAL, events[..m]), events[m]);
      EvolvesTransitive(Run(INITIAL, events[..n]).core.table, Run(INITIAL, events[..m]).core.table,
                        Run(INITIAL, events).core.table);
    }
  }

  /** The event is a decision script on id that succeeds. */
  predicate Decides(s: State, e: Event, id: string) {
    e.Eval? && e.id == id && CanEval(s, e.op, e.id, e.tenant)
  }

  /** A record that exists is changed by a decision script that succeeds, which leaves it pending no longer, and by
      nothing else. */
  lemma OnlyDecisionsChangeRows(events: seq<Event>, m: nat, id: string)
    requires m < |events| && id in Run(INITIAL, events[..m]).core.table
    ensures
      var before, after := Run(INITIAL, events[..m]).core.table, Run(INITIAL, events[..m + 1]).core.table;
      && id in after && (after[id] != before[id] <==> Decides(Run(INITIAL, events[..m]), events[m], id))
      && (after[id] != before[id] ==> before[id].status == Pending && after[id].status != Pending)
  {
    hide Run, Step;
    OneStep(events, m);
    StepRefines(Run(INITIAL, events[..m]), events[m]);
  }

  /** Once a decision on an approval has succeeded, every later one in the run is refused. */
  lemma OneDecisionWins(events: seq<Event>, i: nat, j: nat, id: string)
    requires i < j < |events| && Decides(Run(INITIAL, events[..i]), events[i], id)
    ensures !Decides(Run(INITIAL, events[..j]), events[j], id)
  {
    assert events[..i + 1][..i] == events[..i];
    assert events[..j][..i + 1] == events[..i + 1];
    RowsEvolve(events[..j], i + 1);
  }

  /** The record a successful decision script rewrites stays, for the rest of the run, exactly as it decided. */
  lemma DecisionStands(events: seq<Event>, i: nat, n: nat, id: string)
    requires i < n <= |events| && Decides(Run(INITIAL, events[..i]), events[i], id)
    ensures
      var was, now := Run(INITIAL, events[..i]).core.table, Run(INITIAL, events[..n]).core.table;
      && id in was && id in now && DecidedBy(was[id], now[id], events[i].ruling)
      && (now[id].status == Approved <==> events[i].ruling.decision == Approve)
  {
    hide Run;
    OneStep(events, i);
    assert events[..n][..i + 1] == events[..i + 1];
    RowsEvolve(events[..n], i + 1);
    ApprovalCore.DecisionStands(Run(INITIAL, events[..i]).core.table, Run(INITIAL, events[..n]).core.table, id,
                                events[i].tenant, events[i].ruling);
  }

  lemma OneStep(events: seq<Event>, m: nat)
    requires m < |events|
    ensures Run(INITIAL, events[..m + 1]) == Step(Run(INITIAL, events[..m]), events[m])
  {
    hide Step;
    assert events[..m + 1][..m] == events[..m];
  }

  // ---- When an index keeps a decided id ----

  predicate Adds(s: State, e: Event, id: string) {
    e.Sadd? && e.op in s.calls && s.calls[e.op].Adding? && s.calls[e.op].row.id == id
  }

  predicate Removes(s: State, e: Event, id: string) {
    e.Srem? && e.op in s.calls && s.calls[e.op].Removing? && s.calls[e.op].row.id == id
  }

  predicate Indexed(s: State, id: string) {
    id in s.core.table && id in Members(s.index, s.core.table[id].tenant)
  }

  predicate Decided(s: State, id: string) {
    id in s.core.table && s.core.table[id].status != Pending
  }

  ghost predicate BeingAdded(s: State, id: string) {
    exists op :: op in s.calls && s.calls[op].Adding? && s.calls[op].row.id == id
  }

  ghost predicate BeingRemoved(s: State, id: string) {
    exists op :: op in s.calls && s.calls[op].Removing? && s.calls[op].row.id == id
  }

  /** No two calls are both about to remove one id. */
  ghost predicate OneRemover(s: State) {
    forall a, b ::
      (a in s.calls && b in s.calls && s.calls[a].Removing? && s.calls[b].Removing?
       && s.calls[a].row.id == s.calls[b].row.id) ==> a == b
  }

  /** One step changes whether an id is indexed only by its own SADD and SREM. */
  lemma StepIndexes(s: State, e: Event, id: string)
    requires Inv(s)
    ensures Indexed(Step(s, e), id) <==> Adds(s, e, id) || (Indexed(s, id) && !Removes(s, e, id))
  {
    hide ScanOk, WellFormed;
    if e.op in s.calls {
      assert CallOk(s.core, e.op, s.calls[e.op]);
    }
    if e.SetNx? && CanSet(s, e.op, e.row) {
      assert e.row.id !in Members(s.index, e.row.tenant);
    }
  }

  lemma StepAdding(s: State, e: Event, id: string)
    requires Inv(s)
    ensures BeingAdded(s, id) ==> BeingAdded(Step(s, e), id) || Adds(s, e, id)
    ensures id in Step(s, e).core.table && id !in s.core.table ==> BeingAdded(Step(s, e), id)
  {
    if id in Step(s, e).core.table && id !in s.core.table {
      InsertedIsCreating(s, e, id);
    }
    if op :| op in s.calls && s.calls[op].Adding? && s.calls[op].row.id == id {
      assert id in Creating(s.calls);
      CreatingShrinksOnlyBySadd(s, e, id);
    }
  }

  lemma StepRemoving(s: State, e: Event, id: string)
    requires Inv(s)
    ensures BeingRemoved(s, id) ==> BeingRemoved(Step(s, e), id) || Removes(s, e, id)
    ensures Decided(Step(s, e), id) && !Decided(s, id) ==> BeingRemoved(Step(s, e), id)
  {
    hide ScanOk;
    if Decided(Step(s, e), id) && !Decided(s, id) {
      assert e.Eval? && Step(s, e).calls[e.op].Removing? && Step(s, e).calls[e.op].row.id == id;
    }
    if op :| op in s.calls && s.calls[op].Removing? && s.calls[op].row.id == id {
      if op != e.op {
        StepTouchesOwnCallOnly(s, e, op);
      } else if !e.Srem? {
        assert Step(s, e).calls[op] == s.calls[op];
      }
    }
  }

  /** A new remover appears only for an id that was pending until then. */
  lemma RemoverIsNotNew(s: State, e: Event, op: nat)
    requires Inv(s) && op in Step(s, e).calls && Step(s, e).calls[op].Removing?
    requires Decided(s, Step(s, e).calls[op].row.id)
    ensures op in s.calls && s.calls[op] == Step(s, e).calls[op]
  {
    if op != e.op {
      StepTouchesOwnCallOnly(s, e, op);
    }
  }

  lemma RemovesDecided(s: State, op: nat)
    requires Inv(s) && op in s.calls && s.calls[op].Removing?
    ensures Decided(s, s.calls[op].row.id)
  {
    assert CallOk(s.core, op, s.calls[op]);
  }

  lemma StepKeepsOneRemover(s: State, e: Event)
    requires Inv(s) && OneRemover(s)
    ensures OneRemover(Step(s, e))
  {
    var t := Step(s, e);
    forall a, b | a in t.calls && b in t.calls && t.calls[a].Removing? && t.calls[b].Removing?
      && t.calls[a].row.id == t.calls[b].row.id
      ensures a == b
    {
      if a != e.op {
        StepTouchesOwnCallOnly(s, e, a);
        RemovesDecided(s, a);
        RemoverIsNotNew(s, e, b);
      } else if b != e.op {
        StepTouchesOwnCallOnly(s, e, b);
        RemovesDecided(s, b);
        RemoverIsNotNew(s, e, a);
      }
    }
  }

  lemma {:induction false} RunKeepsOneRemover(events: seq<Event>)
    ensures OneRemover(Run(INITIAL, events))
  {
    if events != [] {
      var m := |events| - 1;
      RunKeepsOneRemover(events[..m]);
      RunKeepsInv(INITIAL, events[..m]);
      StepKeepsOneRemover(Run(INITIAL, events[..m]), events[m]);
    }
  }

  /** Removing an id leaves nobody else about to, and nobody will be again. */
  lemma RemovalIsFinal(s: State, e: Event, id: string)
    requires Inv(s) && OneRemover(s)
    requires Removes(s, e, id) || (Decided(s, id) && !BeingRemoved(s, id))
    ensures Decided(Step(s, e), id) && !BeingRemoved(Step(s, e), id)
  {
    var t := Step(s, e);
    StepEvolves(s, e);
    if Removes(s, e, id) {
      RemovesDecided(s, e.op);
    }
    forall op | op in t.calls && t.calls[op].Removing? ensures t.calls[op].row.id != id {
      if t.calls[op].row.id == id {
        RemoverIsNotNew(s, e, op);
      }
    }
  }

  ghost predicate AddsAt(events: seq<Event>, k: int, id: string) {
    0 <= k < |events| && Adds(Run(INITIAL, events[..k]), events[k], id)
  }

  ghost predicate RemovesAt(events: seq<Event>, k: int, id: string) {
    0 <= k < |events| && Removes(Run(INITIAL, events[..k]), events[k], id)
  }

  /** Before step n the id was added, and not removed since. */
  ghost predicate LastAdded(events: seq<Event>, n: nat, id: string) {
    exists k :: k < n && AddsAt(events, k, id) && forall j :: k < j < n ==> !RemovesAt(events, j, id)
  }

  lemma LastAddedStep(events: seq<Event>, n: nat, id: string)
    ensures LastAdded(events, n + 1, id) <==>
      AddsAt(events, n, id) || (LastAdded(events, n, id) && !RemovesAt(events, n, id))
  {
    hide AddsAt, RemovesAt;
    if AddsAt(events, n, id) {
      assert forall j :: n < j < n + 1 ==> !RemovesAt(events, j, id);
    }
    if LastAdded(events, n, id) && !RemovesAt(events, n, id) {
      var k :| k < n && AddsAt(events, k, id) && forall j :: k < j < n ==> !RemovesAt(events, j, id);
      assert forall j :: k < j < n + 1 ==> !RemovesAt(events, j, id);
    }
  }

  /** An id is indexed exactly when its latest index command was an SADD. */
  lemma {:induction false} IndexedByLastCommand(events: seq<Event>, n: nat, id: string)
    requires n <= |events|
    ensures Indexed(Run(INITIAL, events[..n]), id) <==> LastAdded(events, n, id)
  {
    if n > 0 {
      var m := n - 1;
      assert events[..n][..m] == events[..m];
      IndexedByLastCommand(events, m, id);
      RunKeepsInv(INITIAL, events[..m]);
      StepIndexes(Run(INITIAL, events[..m]), events[m], id);
      LastAddedStep(events, m, id);
    }
  }

  lemma {:induction false} StoredWasAdded(events: seq<Event>, n: nat, id: string)
    requires n <= |events| && id in Run(INITIAL, events[..n]).core.table
    ensures BeingAdded(Run(INITIAL, events[..n]), id) || exists k :: k < n && AddsAt(events, k, id)
  {
    if n > 0 {
      var m := n - 1;
      assert events[..n][..m] == events[..m];
      RunKeepsInv(INITIAL, events[..m]);
      StepAdding(Run(INITIAL, events[..m]), events[m], id);
      if id in Run(INITIAL, events[..m]).core.table {
        StoredWasAdded(events, m, id);
        assert Adds(Run(INITIAL, events[..m]), events[m], id) ==> AddsAt(events, m, id);
      }
    }
  }

  lemma {:induction false} DecidedWasRemoved(events: seq<Event>, n: nat, id: string)
    requires n <= |events| && Decided(Run(INITIAL, events[..n]), id)
    ensures BeingRemoved(Run(INITIAL, events[..n]), id) || exists k :: k < n && RemovesAt(events, k, id)
  {
    if n > 0 {
      var m := n - 1;
      assert events[..n][..m] == events[..m];
      RunKeepsInv(INITIAL, events[..m]);
      StepRemoving(Run(INITIAL, events[..m]), events[m], id);
      if Decided(Run(INITIAL, events[..m]), id) {
        DecidedWasRemoved(events, m, id);
        assert Removes(Run(INITIAL, events[..m]), events[m], id) ==> RemovesAt(events, m, id);
      }
    }
  }

  lemma {:induction false} AfterRemoval(events: seq<Event>, j: int, n: nat, id: string)
    requires j < n <= |events| && RemovesAt(events, j, id)
    ensures Decided(Run(INITIAL, events[..n]), id) && !BeingRemoved(Run(INITIAL, events[..n]), id)
  {
    var m := n - 1;
    assert events[..n][..m] == events[..m];
    RunKeepsInv(INITIAL, events[..m]);
    RunKeepsOneRemover(events[..m]);
    if m > j {
      AfterRemoval(events, j, m, id);
    }
    RemovalIsFinal(Run(INITIAL, events[..m]), events[m], id);
  }

  lemma RemovedOnce(events: seq<Event>, i: int, j: int, id: string)
    requires i < j && RemovesAt(events, i, id)
    ensures !RemovesAt(events, j, id)
  {
    if j < |events| {
      AfterRemoval(events, i, j, id);
    }
  }

  /** The creation's SADD came after the decision's SREM. */
  ghost predicate AddedAfterRemoval(events: seq<Event>, id: string) {
    exists j, k :: j < k && RemovesAt(events, j, id) && AddsAt(events, k, id)
  }

  /** A decided id that no call is still adding or removing is left in its tenant's index exactly when the SADD of
      its creation came after the SREM of its decision. */
  lemma StaleExactlyWhenAddedLate(events: seq<Event>, id: string)
    requires
      var s := Run(INITIAL, events);
      Decided(s, id) && !BeingAdded(s, id) && !BeingRemoved(s, id)
    ensures Indexed(Run(INITIAL, events), id) <==> AddedAfterRemoval(events, id)
  {
    hide Run, AddsAt, RemovesAt, BeingAdded, BeingRemoved;
    var n := |events|;
    assert events[..n] == events;
    IndexedByLastCommand(events, n, id);
    StoredWasAdded(events, n, id);
    DecidedWasRemoved(events, n, id);
    if LastAdded(events, n, id) {
      AddedLastIsLate(events, id);
    }
    if AddedAfterRemoval(events, id) {
      var j, k :| j < k && RemovesAt(events, j, id) && AddsAt(events, k, id);
      forall i | k < i < n ensures !RemovesAt(events, i, id) {
        RemovedOnce(events, j, i, id);
      }
      AddsInRange(events, k, id);
      assert LastAdded(events, n, id);
    }
  }

  lemma AddsInRange(events: seq<Event>, k: int, id: string)
    requires AddsAt(events, k, id)
    ensures 0 <= k < |events| && !RemovesAt(events, k, id)
  {
  }

  lemma AddedLastIsLate(events: seq<Event>, id: string)
    requires LastAdded(events, |events|, id) && exists j :: j < |events| && RemovesAt(events, j, id)
    ensures AddedAfterRemoval(events, id)
  {
    hide AddsAt, RemovesAt;
    var k :| k < |events| && AddsAt(events, k, id) && forall j :: k < j < |events| ==> !RemovesAt(events, j, id);
    var j :| j < |events| && RemovesAt(events, j, id);
    AddsInRange(events, k, id);
    assert j < k;
  }

  /** A decision that overtakes the creation's index update leaves a stale id behind. */
  lemma IndexCanHoldStaleId(row: Record, ruling: Ruling)
    requires Fresh(row)
    ensures
      var s := Run(INITIAL, [SetNx(0, row), Eval(1, row.id, row.tenant, ruling), Srem(1), Sadd(0)]);
      && row.id in Members(s.index, row.tenant)
      && row.id in s.core.table && s.core.table[row.id].status != Pending
  {
    var events := [SetNx(0, row), Eval(1, row.id, row.tenant, ruling), Srem(1), Sadd(0)];
    assert events[..3][..2] == events[..2] && events[..2][..1] == events[..1] && events[..1][..0] == [];
    var s1 := Step(INITIAL, events[0]);
    assert Run(INITIAL, events[..1]) == s1;
    var s2 := Step(s1, events[1]);
    assert Run(INITIAL, events[..2]) == s2;
    assert 0 in s2.calls && s2.calls[0] == Adding(row);
    var s3 := Step(s2, events[2]);
    assert Run(INITIAL, events[..3]) == s3;
    assert 0 in s3.calls && s3.calls[0] == Adding(row);
    assert Run(INITIAL, events) == Step(s3, events[3]);
  }

  // ---- Key names ----

  function RecordKey(prefix: string, id: string): string {
    prefix + id
  }

  function IndexKey(prefix: string, tenant: string): string {
    prefix + "pending-index:" + tenant
  }

  /** Records and index sets share one key space; only an id that spells an index name can collide, and a UUID
      cannot. */
  lemma KeysClashOnlyOnIndexNames(prefix: string, id: string, tenant: string)
    ensures RecordKey(prefix, id) == IndexKey(prefix, tenant) <==> id == "pending-index:" + tenant
    ensures ':' !in id ==> RecordKey(prefix, id) != IndexKey(prefix, tenant)
  {
    assert IndexKey(prefix, tenant) == prefix + ("pending-index:" + tenant);
    assert RecordKey(prefix, id)[|prefix|..] == id;
    assert (prefix + ("pending-index:" + tenant))[|prefix|..] == "pending-index:" + tenant;
    assert ("pending-index:" + tenant)[13] == ':';
  }

  function IndexedRows(table: Table, index: map<string, set<string>>, tenant: string): set<Record> {
    set id | id in Members(index, tenant) && id in PendingIds(table, tenant) :: table[id]
  }

  lemma IndexedRowsComplete(s: State, tenant: string)
    requires Inv(s)
    ensures
      var rows := IndexedRows(s.core.table, s.index, tenant);
      && (forall r :: r in PendingRows(s.core.table, tenant) && r.id !in Creating(s.calls) ==> r in rows)
      && (Creating(s.calls) == {} ==> rows == PendingRows(s.core.table, tenant))
  {
  }

  // ---- The store object: one command at a time ----

  datatype Error = NotPersisted | MissingDecidedOrForeign

  class RedisApprovalStore {
    var records: Table
    var index: map<string, set<string>>
    var gauge: map<string, int>
    ghost var owed: map<nat, Debt>
    ghost var calls: map<nat, Call>

    ghost function Snapshot(): State
      reads this
    {
      State(Core(records, gauge, owed), index, calls)
    }

    constructor ()
      ensures Snapshot() == INITIAL
    {
      records, index, gauge, owed, calls := map[], map[], map[], map[], map[];
    }

    /** SET key value NX */
    method SetIfAbsent(ghost op: nat, row: Record) returns (created: bool)
      requires Fresh(row) && Idle(Snapshot(), op)
      modifies this
      ensures created == (row.id !in old(records))
      ensures Snapshot() == Step(old(Snapshot()), SetNx(op, row))
    {
      created := row.id !in records;
      if created {
        records := records[row.id := row];
        owed, calls := owed[op := Increment(row.tenant)], calls[op := Adding(row)];
      }
    }

    /** SADD index id */
    method AddToIndex(ghost op: nat, row: Record)
      requires op in calls && calls[op] == Adding(row)
      modifies this`index, this`calls
      ensures Snapshot() == Step(old(Snapshot()), Sadd(op))
    {
      index := index[row.tenant := Members(index, row.tenant) + {row.id}];
      calls := calls[op := Reporting];
    }

    /** EVAL of the decision script: checks and rewrite in one atomic step. */
    method EvalDecide(ghost op: nat, id: string, tenant: string, ruling: Ruling) returns (result: Option<Record>)
      requires Idle(Snapshot(), op)
      modifies this
      ensures result.Some? <==> Decidable(old(records), id, tenant)
      ensures result.None? ==> records == old(records)
      ensures result.Some? ==>
        DecidedBy(old(records)[id], result.value, ruling) && records == old(records)[id := result.value]
      ensures Snapshot() == Step(old(Snapshot()), Eval(op, id, tenant, ruling))
    {
      if id !in records {
        return None;
      }
      var record := records[id];
      if record.status != Pending {
        return None;
      }
      if record.tenant != tenant {
        return None;
      }
      var updated := Ruled(record, ruling);
      records := records[id := updated];
      owed, calls := owed[op := Decrement(tenant)], calls[op := Removing(updated)];
      return Some(updated);
    }

    /** SREM index id */
    method RemoveFromIndex(ghost op: nat, row: Record)
      requires op in calls && calls[op] == Removing(row)
      modifies this`index, this`calls
      ensures Snapshot() == Step(old(Snapshot()), Srem(op))
    {
      index := index[row.tenant := Members(index, row.tenant) - {row.id}];
      calls := calls[op := Reporting];
    }

    method MoveGauge(ghost op: nat, tenant: string, change: int)
      requires op in calls && calls[op] == Reporting
      requires op in owed && owed[op] == if change == 1 then Increment(tenant) else Decrement(tenant)
      requires change == 1 || change == -1
      modifies this`gauge, this`owed, this`calls
      ensures Snapshot() == Step(old(Snapshot()), Report(op))
    {
      gauge := gauge[tenant := (if tenant in gauge then gauge[tenant] else 0) + change];
      owed, calls := owed - {op}, calls - {op};
    }

    method CreatePending(ghost op: nat, row: Record) returns (r: Result<Record, Error>)
      requires Fresh(row) && Idle(Snapshot(), op)
      modifies this
      ensures row.id in old(records) ==> r == Err(NotPersisted) && Snapshot() == old(Snapshot())
      ensures row.id !in old(records) ==>
        && r == Ok(row)
        && Snapshot() == Step(Step(Step(old(Snapshot()), SetNx(op, row)), Sadd(op)), Report(op))
    {
      var created := SetIfAbsent(op, row);
      if !created {
        return Err(NotPersisted);
      }
      AddToIndex(op, row);
      MoveGauge(op, row.tenant, 1);
      return Ok(row);
    }

    method DecidePending(ghost op: nat, id: string, tenant: string, ruling: Ruling) returns (r: Result<Record, Error>)
      requires Idle(Snapshot(), op)
      modifies this
      ensures !Decidable(old(records), id, tenant) ==>
        r == Err(MissingDecidedOrForeign) && Snapshot() == old(Snapshot())
      ensures Decidable(old(records), id, tenant) ==>
        && r.Ok? && DecidedBy(old(records)[id], r.value, ruling) && records == old(records)[id := r.value]
        && Snapshot() == Step(Step(Step(old(Snapshot()), Eval(op, id, tenant, ruling)), Srem(op)), Report(op))
    {
      var result := EvalDecide(op, id, tenant, ruling);
      if result.None? {
        return Err(MissingDecidedOrForeign);
      }
      RemoveFromIndex(op, result.value);
      MoveGauge(op, result.value.tenant, -1);
      return Ok(result.value);
    }

    method Get(id: string, tenant: string) returns (r: Option<Record>)
      ensures r == Fetch(records, id, tenant)
    {
      if id !in records {
        return None;
      }
      var record := records[id];
      return if record.tenant == tenant then Some(record) else None;
    }

    /** SMEMBERS, a GET for each member, then filter and sort: the creation-ordered listing of the tenant's pending
        rows that are indexed. Those are all of them, whatever stale ids the index holds, but for creations in
        flight. */
    method ListPending(tenant: string) returns (rows: seq<Record>)
      requires Inv(Snapshot())
      ensures Lists(rows, IndexedRows(records, index, tenant))
      ensures forall r :: r in PendingRows(records, tenant) && r.id !in Creating(calls) ==>
        r in IndexedRows(records, index, tenant)
      ensures Creating(calls) == {} ==> Lists(rows, PendingRows(records, tenant))
    {
      var members := Members(index, tenant);
      var todo, found: set<Record> := members, {};
      while todo != {}
        invariant todo <= members
        invariant found == set id | id in members - todo && id in PendingIds(records, tenant) :: records[id]
      {
        var id :| id in todo;
        var row := Get(id, tenant);
        if row.Some? && row.value.status == Pending {
          found := found + {row.value};
        }
        todo := todo - {id};
      }
      assert found == IndexedRows(records, index, tenant);
      IndexedRowsComplete(Snapshot(), tenant);
      rows := OrderByCreation(found);
    }
  }
}
