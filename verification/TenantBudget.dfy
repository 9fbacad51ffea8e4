/** Rolling per-tenant spend ceilings: a lazily purged deque that decides as the whole history would. */
module TenantBudget {
  import opened Wrappers
  import opened SlidingWindow
  import Rounding

  datatype Verdict = Reserved | NoCeiling | Exceeded

  /** An amount or a length of time that the constructor does not refuse. */
  type Positive = x: real | x > 0.0 witness 1.0

  /** Ceilings by tenant, and the default one. The constructor refuses to have neither; the laws hold all the same. */
  datatype Limits = Limits(ceilings: map<string, Positive>, fallback: Option<Positive>, window: Positive) {
    function CeilingFor(tenant: string): Option<Positive> {
      if tenant in ceilings then Some(ceilings[tenant]) else fallback
    }
  }

  function HistoryOf(accepted: map<string, seq<Entry>>, tenant: string): seq<Entry> {
    if tenant in accepted then accepted[tenant] else []
  }

  /** The reference decision: sum every reservation ever accepted that is still in the window. */
  function Reserve(limits: Limits, accepted: map<string, seq<Entry>>, tenant: string, now: real, cost: real)
    : (Verdict, map<string, seq<Entry>>)
  {
    var history := HistoryOf(accepted, tenant);
    match limits.CeilingFor(tenant)
    case None => (NoCeiling, accepted)
    case Some(ceiling) =>
      if Spent(history, now, limits.window) + cost > ceiling then (Exceeded, accepted)
      else (Reserved, accepted[tenant := history + [Entry(now, cost)]])
  }

  /** A tenant is held to its own ceiling if it has one and to the fallback if not; it is refused outright only with
      neither. What fits is recorded, and nothing else is. */
  lemma ReserveMeaning(limits: Limits, accepted: map<string, seq<Entry>>, tenant: string, now: real, cost: real)
    ensures
      var (verdict, after) := Reserve(limits, accepted, tenant, now, cost);
      var history := HistoryOf(accepted, tenant);
      var total := Spent(history, now, limits.window) + cost;
      && (tenant in limits.ceilings ==> verdict == if total <= limits.ceilings[tenant] then Reserved else Exceeded)
      && (tenant !in limits.ceilings && limits.fallback.Some? ==>
            verdict == if total <= limits.fallback.value then Reserved else Exceeded)
      && (tenant !in limits.ceilings && limits.fallback.None? ==> verdict == NoCeiling)
      && after == if verdict == Reserved then accepted[tenant := history + [Entry(now, cost)]] else accepted
  {
  }

  /** What holds of the full record of one tenant's reservations. */
  ghost predicate SoundLedger(limits: Limits, tenant: string, history: seq<Entry>, clock: real) {
    && limits.CeilingFor(tenant).Some?
    && Ordered(history)
    && (forall i :: 0 <= i < |history| ==> history[i].at <= clock)
    && Admitted(history, limits.window, limits.CeilingFor(tenant).value)
  }

  ghost predicate Sound(limits: Limits, accepted: map<string, seq<Entry>>, clock: real) {
    forall t :: t in accepted ==> SoundLedger(limits, t, accepted[t], clock)
  }

  lemma AppendKeepsSound(limits: Limits, tenant: string, history: seq<Entry>, clock: real, e: Entry)
    requires limits.CeilingFor(tenant).Some?
    requires history == [] || SoundLedger(limits, tenant, history, clock)
    requires clock <= e.at
    requires Spent(history, e.at, limits.window) + e.cost <= limits.CeilingFor(tenant).value
    ensures SoundLedger(limits, tenant, history + [e], e.at)
  {
    assert (history + [e])[..|history|] == history;
  }

  lemma ReserveKeepsSound(limits: Limits, accepted: map<string, seq<Entry>>, clock: real,
                          tenant: string, now: real, cost: real)
    requires Sound(limits, accepted, clock) && now >= clock
    ensures Sound(limits, Reserve(limits, accepted, tenant, now, cost).1, now)
  {
    var (verdict, after) := Reserve(limits, accepted, tenant, now, cost);
    if verdict == Reserved {
      AppendKeepsSound(limits, tenant, HistoryOf(accepted, tenant), clock, Entry(now, cost));
    }
    forall t | t in after && (verdict != Reserved || t != tenant) ensures SoundLedger(limits, t, after[t], now) {
      assert SoundLedger(limits, t, accepted[t], clock);
    }
  }

  // ---- Runs ----

  datatype Request = Request(tenant: string, at: real, cost: real)

  function Run(limits: Limits, requests: seq<Request>): map<string, seq<Entry>> {
    if requests == [] then map[]
    else
      var n := |requests| - 1;
      var last := requests[n];
      Reserve(limits, Run(limits, requests[..n]), last.tenant, last.at, last.cost).1
  }

  ghost predicate Chronological(requests: seq<Request>) {
    forall i, j :: 0 <= i < j < |requests| ==> requests[i].at <= requests[j].at
  }

  function Only(requests: seq<Request>, tenant: string): seq<Request> {
    if requests == [] then []
    else
      var n := |requests| - 1;
      var init := Only(requests[..n], tenant);
      if requests[n].tenant == tenant then init + [requests[n]] else init
  }

  lemma {:induction false} RunIsSound(limits: Limits, requests: seq<Request>, clock: real)
    requires Chronological(requests)
    requires forall i :: 0 <= i < |requests| ==> requests[i].at <= clock
    ensures Sound(limits, Run(limits, requests), clock)
  {
    if requests != [] {
      var n := |requests| - 1;
      var last := requests[n];
      RunIsSound(limits, requests[..n], last.at);
      ReserveKeepsSound(limits, Run(limits, requests[..n]), last.at, last.tenant, last.at, last.cost);
    }
  }

  lemma {:induction false} RunCostsNonNegative(limits: Limits, requests: seq<Request>, tenant: string)
    requires forall i :: 0 <= i < |requests| ==> requests[i].cost >= 0.0
    ensures NonNegative(HistoryOf(Run(limits, requests), tenant))
  {
    if requests != [] {
      RunCostsNonNegative(limits, requests[..|requests| - 1], tenant);
    }
  }

  /** No tenant ever exceeds its own ceiling, or the fallback if it has none, in any window of any run, whatever the
      other tenants do; a tenant with neither reserves nothing. */
  lemma CeilingHoldsInEveryWindow(limits: Limits, requests: seq<Request>, tenant: string)
    requires Chronological(requests)
    requires forall i :: 0 <= i < |requests| ==> requests[i].cost >= 0.0
    ensures
      var history := HistoryOf(Run(limits, requests), tenant);
      if tenant in limits.ceilings then EveryWindowWithin(history, limits.window, limits.ceilings[tenant])
      else if limits.fallback.Some? then EveryWindowWithin(history, limits.window, limits.fallback.value)
      else history == []
  {
    var clock := if requests == [] then 0.0 else requests[|requests| - 1].at;
    RunIsSound(limits, requests, clock);
    RunCostsNonNegative(limits, requests, tenant);
    var history := HistoryOf(Run(limits, requests), tenant);
    match limits.CeilingFor(tenant)
    case None =>
    case Some(ceiling) =>
      assert Admitted(history, limits.window, ceiling);
      AdmittedBoundsEveryWindow(history, limits.window, ceiling);
  }

  /** Each request of a run adds its own cost to its own tenant's ledger, exactly when it fits there, and does nothing
      else. */
  lemma LedgerGrowsExactly(limits: Limits, requests: seq<Request>, n: nat, tenant: string)
    requires n < |requests|
    ensures
      var r := requests[n];
      var before := HistoryOf(Run(limits, requests[..n]), tenant);
      var total := Spent(before, r.at, limits.window) + r.cost;
      var fits := if tenant in limits.ceilings then total <= limits.ceilings[tenant]
                  else limits.fallback.Some? && total <= limits.fallback.value;
      HistoryOf(Run(limits, requests[..n + 1]), tenant) ==
        if r.tenant == tenant && fits then before + [Entry(r.at, r.cost)] else before
  {
    assert requests[..n + 1][..n] == requests[..n];
    ReserveMeaning(limits, Run(limits, requests[..n]), requests[n].tenant, requests[n].at, requests[n].cost);
  }

  /** A reservation changes its own tenant's ledger only, and by that ledger alone. */
  lemma ReserveIsLocal(limits: Limits, a: map<string, seq<Entry>>, b: map<string, seq<Entry>>,
                       r: Request, tenant: string)
    requires HistoryOf(a, tenant) == HistoryOf(b, tenant)
    ensures r.tenant == tenant ==>
      HistoryOf(Reserve(limits, a, r.tenant, r.at, r.cost).1, tenant)
        == HistoryOf(Reserve(limits, b, r.tenant, r.at, r.cost).1, tenant)
    ensures r.tenant != tenant ==>
      HistoryOf(Reserve(limits, a, r.tenant, r.at, r.cost).1, tenant) == HistoryOf(a, tenant)
  {
  }

  /** A tenant's ledger is what it would be had no other tenant called. */
  lemma {:induction false} TenantsAreIsolated(limits: Limits, requests: seq<Request>, tenant: string)
    ensures HistoryOf(Run(limits, requests), tenant) == HistoryOf(Run(limits, Only(requests, tenant)), tenant)
  {
    if requests != [] {
      var n := |requests| - 1;
      TenantsAreIsolated(limits, requests[..n], tenant);
      ReserveIsLocal(limits, Run(limits, requests[..n]), Run(limits, Only(requests[..n], tenant)), requests[n], tenant);
      if requests[n].tenant == tenant {
        var init := Only(requests[..n], tenant);
        assert (init + [requests[n]])[..|init|] == init;
      }
    }
  }

  // ---- The in-process policy object ----

  /** `kept` is what remains of `full` once a front part, all of it expired, is dropped. */
  ghost predicate Remainder(full: seq<Entry>, kept: seq<Entry>, cutoff: real) {
    && |kept| <= |full|
    && kept == full[|full| - |kept|..]
    && forall i :: 0 <= i < |full| - |kept| ==> full[i].at <= cutoff
  }

  lemma RemainderAppend(full: seq<Entry>, kept: seq<Entry>, cutoff: real, e: Entry)
    requires Remainder(full, kept, cutoff)
    ensures Remainder(full + [e], kept + [e], cutoff)
  {
  }

  /** The popping loop: what is left is exactly the trailing window of the full record. */
  method PopExpired(deque: seq<Entry>, now: real, window: real, ghost full: seq<Entry>) returns (ledger: seq<Entry>)
    requires Remainder(full, deque, now - window)
    requires Ordered(full) && forall i :: 0 <= i < |full| ==> full[i].at <= now
    ensures Remainder(full, ledger, now - window)
    ensures ledger == Pick(full, Trailing(now, window))
  {
    ledger := deque;
    while ledger != [] && ledger[0].at <= now - window
      invariant Remainder(full, ledger, now - window)
    {
      ledger := ledger[1..];
    }
    SuffixIsTrailing(full, |full| - |ledger|, now, window);
  }

  method Sum(ledger: seq<Entry>) returns (sum: real)
    ensures sum == Total(ledger)
  {
    sum := 0.0;
    for i := 0 to |ledger|
      invariant sum == Total(ledger[..i])
    {
      TotalAppend(ledger[..i], ledger[i]);
      assert ledger[..i + 1] == ledger[..i] + [ledger[i]];
      sum := sum + ledger[i].cost;
    }
    assert ledger[..|ledger|] == ledger;
  }

  ghost predicate Consistent(limits: Limits, accepted: map<string, seq<Entry>>,
                             spend: map<string, seq<Entry>>, clock: real)
  {
    && Sound(limits, accepted, clock)
    && forall t :: Remainder(HistoryOf(accepted, t), HistoryOf(spend, t), clock - limits.window)
  }

  lemma TimePasses(limits: Limits, accepted: map<string, seq<Entry>>, spend: map<string, seq<Entry>>,
                   clock: real, now: real)
    requires Consistent(limits, accepted, spend, clock) && clock <= now
    ensures Consistent(limits, accepted, spend, now)
  {
    forall t | t in accepted ensures SoundLedger(limits, t, accepted[t], now) {
      assert SoundLedger(limits, t, accepted[t], clock);
    }
    forall t ensures Remainder(HistoryOf(accepted, t), HistoryOf(spend, t), now - limits.window) {
      assert Remainder(HistoryOf(accepted, t), HistoryOf(spend, t), clock - limits.window);
    }
  }

  lemma StorePurged(limits: Limits, accepted: map<string, seq<Entry>>, spend: map<string, seq<Entry>>,
                    clock: real, tenant: string, ledger: seq<Entry>)
    requires Consistent(limits, accepted, spend, clock)
    requires Remainder(HistoryOf(accepted, tenant), ledger, clock - limits.window)
    ensures Consistent(limits, accepted, spend[tenant := ledger], clock)
  {
    hide Sound, Remainder;
    var after, cutoff := spend[tenant := ledger], clock - limits.window;
    forall t ensures Remainder(HistoryOf(accepted, t), HistoryOf(after, t), cutoff) {
      if t == tenant {
        assert HistoryOf(after, t) == ledger;
      } else {
        assert HistoryOf(after, t) == HistoryOf(spend, t);
      }
    }
  }

  lemma StoreReserved(limits: Limits, accepted: map<string, seq<Entry>>, spend: map<string, seq<Entry>>,
                      clock: real, tenant: string, e: Entry)
    requires Consistent(limits, accepted, spend, clock)
    requires Sound(limits, accepted[tenant := HistoryOf(accepted, tenant) + [e]], clock)
    ensures Consistent(limits, accepted[tenant := HistoryOf(accepted, tenant) + [e]],
                       spend[tenant := HistoryOf(spend, tenant) + [e]], clock)
  {
    hide Sound, Remainder;
    var accepted' := accepted[tenant := HistoryOf(accepted, tenant) + [e]];
    var spend' := spend[tenant := HistoryOf(spend, tenant) + [e]];
    var cutoff := clock - limits.window;
    assert Remainder(HistoryOf(accepted, tenant), HistoryOf(spend, tenant), cutoff);
    RemainderAppend(HistoryOf(accepted, tenant), HistoryOf(spend, tenant), cutoff, e);
    forall t ensures Remainder(HistoryOf(accepted', t), HistoryOf(spend', t), cutoff) {
      if t == tenant {
        assert HistoryOf(accepted', t) == HistoryOf(accepted, t) + [e];
        assert HistoryOf(spend', t) == HistoryOf(spend, t) + [e];
      } else {
        assert HistoryOf(accepted', t) == HistoryOf(accepted, t);
        assert HistoryOf(spend', t) == HistoryOf(spend, t);
      }
    }
  }

  lemma SoundHistory(limits: Limits, accepted: map<string, seq<Entry>>, clock: real, tenant: string)
    requires Sound(limits, accepted, clock)
    ensures var h := HistoryOf(accepted, tenant); Ordered(h) && forall i :: 0 <= i < |h| ==> h[i].at <= clock
  {
    if tenant in accepted {
      assert SoundLedger(limits, tenant, accepted[tenant], clock);
    }
  }

  class TenantBudgetPolicy {
    const limits: Limits
    var spend: map<string, seq<Entry>>
    ghost var accepted: map<string, seq<Entry>>
    ghost var clock: real

    ghost predicate Valid()
      reads this
    {
      Consistent(limits, accepted, spend, clock)
    }

    constructor (limits: Limits)
      ensures Valid() && this.limits == limits && accepted == map[]
    {
      this.limits := limits;
      spend, accepted, clock := map[], map[], 0.0;
    }

    method Purge(tenant: string, now: real) returns (ledger: seq<Entry>)
      requires Valid() && now >= clock
      modifies this`spend, this`clock
      ensures Valid() && clock == now
      ensures ledger == Pick(HistoryOf(accepted, tenant), Trailing(now, limits.window))
      ensures HistoryOf(spend, tenant) == ledger
    {
      TimePasses(limits, accepted, spend, clock, now);
      SoundHistory(limits, accepted, now, tenant);
      ledger := PopExpired(HistoryOf(spend, tenant), now, limits.window, HistoryOf(accepted, tenant));
      StorePurged(limits, accepted, spend, now, tenant, ledger);
      spend, clock := spend[tenant := ledger], now;
    }

    method Append(tenant: string, e: Entry)
      requires Valid() && clock == e.at
      requires limits.CeilingFor(tenant).Some?
      requires Spent(HistoryOf(accepted, tenant), e.at, limits.window) + e.cost <= limits.CeilingFor(tenant).value
      modifies this`spend, this`accepted
      ensures Valid()
      ensures accepted == old(accepted)[tenant := HistoryOf(old(accepted), tenant) + [e]]
    {
      ReserveKeepsSound(limits, accepted, clock, tenant, e.at, e.cost);
      StoreReserved(limits, accepted, spend, clock, tenant, e);
      spend := spend[tenant := HistoryOf(spend, tenant) + [e]];
      accepted := accepted[tenant := HistoryOf(accepted, tenant) + [e]];
    }

    method CheckAndReserve(tenant: string, cost: real, now: real) returns (verdict: Verdict)
      requires Valid() && now >= clock
      modifies this
      ensures Valid() && clock == now
      ensures (verdict, accepted) == Reserve(limits, old(accepted), tenant, now, cost)
      ensures
        var total := Spent(HistoryOf(old(accepted), tenant), now, limits.window) + cost;
        && (tenant in limits.ceilings ==> verdict == if total <= limits.ceilings[tenant] then Reserved else Exceeded)
        && (tenant !in limits.ceilings && limits.fallback.Some? ==>
              verdict == if total <= limits.fallback.value then Reserved else Exceeded)
        && (tenant !in limits.ceilings && limits.fallback.None? ==> verdict == NoCeiling)
    {
      hide Consistent, Sound, Remainder, Pick, Total, Trailing;
      ReserveMeaning(limits, accepted, tenant, now, cost);
      var ceiling := limits.CeilingFor(tenant);
      if ceiling.None? {
        TimePasses(limits, accepted, spend, clock, now);
        clock := now;
        return NoCeiling;
      }
      var ledger := Purge(tenant, now);
      var spent := Sum(ledger);
      if spent + cost > ceiling.value {
        return Exceeded;
      }
      Append(tenant, Entry(now, cost));
      return Reserved;
    }

    method SpentGbp(tenant: string, now: real) returns (spent: real)
      requires Valid() && now >= clock
      modifies this`spend, this`clock
      ensures Valid() && clock == now
      ensures Rounding.RoundedTo(spent, Spent(HistoryOf(accepted, tenant), now, limits.window), 100000000.0)
    {
      var ledger := Purge(tenant, now);
      var sum := Sum(ledger);
      Rounding.RoundMeaning(sum, 100000000.0);
      spent := Rounding.Round(sum, 100000000.0);
    }
  }
}
