/** Sliding-window request limits, shared by the HTTP limiter and the tool gateway. */
module RateLimiter {
  import opened SlidingWindow

  function Purged(deque: seq<real>, cutoff: real): seq<real> {
    if deque != [] && deque[0] <= cutoff then Purged(deque[1..], cutoff) else deque
  }

  function Stamps(requests: map<string, seq<real>>, key: string): seq<real> {
    if key in requests then requests[key] else []
  }

  /** What one check does: purge the key's deque, then refuse or append. */
  function Check(requests: map<string, seq<real>>, key: string, now: real, window: real, limit: int)
    : (bool, map<string, seq<real>>)
  {
    var live := Purged(Stamps(requests, key), now - window);
    if |live| >= limit then (false, requests[key := live]) else (true, requests[key := live + [now]])
  }

  /** How many times in the full record satisfy p. */
  function Count(times: seq<real>, p: real -> bool): nat {
    if times == [] then 0
    else Count(times[..|times| - 1], p) + if p(times[|times| - 1]) then 1 else 0
  }

  /** The reference decision: scan every admission ever made for the key. */
  function Reference(admitted: map<string, seq<real>>, key: string, now: real, window: real, limit: int)
    : (bool, map<string, seq<real>>)
  {
    var times := Stamps(admitted, key);
    if Count(times, Trailing(now, window)) < limit then (true, admitted[key := times + [now]]) else (false, admitted)
  }

  // ---- One key: the deque against the full record ----

  ghost predicate Ascending(times: seq<real>, clock: real) {
    && (forall i, j :: 0 <= i < j < |times| ==> times[i] <= times[j])
    && forall i :: 0 <= i < |times| ==> times[i] <= clock
  }

  /** The deque is the record without a front part that had expired by the clock. */
  ghost predicate Tracks(full: seq<real>, deque: seq<real>, clock: real, window: real) {
    && Ascending(full, clock)
    && |deque| <= |full|
    && deque == full[|full| - |deque|..]
    && forall i :: 0 <= i < |full| - |deque| ==> full[i] <= clock - window
  }

  lemma {:induction false} PurgeTracks(full: seq<real>, deque: seq<real>, clock: real, now: real, window: real)
    requires Tracks(full, deque, clock, window) && clock <= now
    ensures Tracks(full, Purged(deque, now - window), now, window)
    ensures var live := Purged(deque, now - window); live == [] || live[0] > now - window
    decreases |deque|
  {
    if deque != [] && deque[0] <= now - window {
      assert Tracks(full, deque[1..], now, window);
      PurgeTracks(full, deque[1..], now, now, window);
    }
  }

  lemma {:induction false} CountSuffix(full: seq<real>, k: nat, now: real, window: real)
    requires k <= |full| && Ascending(full, now)
    requires forall i :: 0 <= i < k ==> full[i] <= now - window
    requires k < |full| ==> full[k] > now - window
    ensures Count(full, Trailing(now, window)) == |full| - k
  {
    if full != [] {
      var n := |full| - 1;
      if k <= n {
        assert full[k] <= full[n];
      }
      CountSuffix(full[..n], if k <= n then k else n, now, window);
    }
  }

  lemma TracksAppend(full: seq<real>, deque: seq<real>, now: real, window: real)
    requires Tracks(full, deque, now, window)
    ensures Tracks(full + [now], deque + [now], now, window)
  {
    var k := |full| - |deque|;
    assert (full + [now])[k..] == full[k..] + [now];
    forall i, j | 0 <= i < j < |full + [now]| ensures (full + [now])[i] <= (full + [now])[j] {
      assert full[i] <= now;
    }
  }

  /** The purged deque and the full record give the same answer, and stay in step. */
  lemma CheckMatchesScan(full: seq<real>, requests: map<string, seq<real>>, key: string,
                         clock: real, now: real, window: real, limit: int)
    requires Tracks(full, Stamps(requests, key), clock, window) && clock <= now
    ensures
      var (allowed, after) := Check(requests, key, now, window, limit);
      && allowed == (Count(full, Trailing(now, window)) < limit)
      && Tracks(if allowed then full + [now] else full, Stamps(after, key), now, window)
      && forall k :: k != key ==> Stamps(after, k) == Stamps(requests, k)
  {
    var deque := Stamps(requests, key);
    PurgeTracks(full, deque, clock, now, window);
    var live := Purged(deque, now - window);
    assert live != [] ==> live[0] == full[|full| - |live|];
    CountSuffix(full, |full| - |live|, now, window);
    if |live| < limit {
      TracksAppend(full, live, now, window);
    }
  }

  // ---- Runs over many keys ----

  datatype Attempt = Attempt(key: string, at: real)

  ghost predicate Chronological(attempts: seq<Attempt>) {
    forall i, j :: 0 <= i < j < |attempts| ==> attempts[i].at <= attempts[j].at
  }

  function Run(attempts: seq<Attempt>, window: real, limit: int): (seq<bool>, map<string, seq<real>>) {
    if attempts == [] then ([], map[])
    else
      var n := |attempts| - 1;
      var (answers, requests) := Run(attempts[..n], window, limit);
      var (allowed, after) := Check(requests, attempts[n].key, attempts[n].at, window, limit);
      (answers + [allowed], after)
  }

  function RunReference(attempts: seq<Attempt>, window: real, limit: int): (seq<bool>, map<string, seq<real>>) {
    if attempts == [] then ([], map[])
    else
      var n := |attempts| - 1;
      var (answers, admitted) := RunReference(attempts[..n], window, limit);
      var (allowed, after) := Reference(admitted, attempts[n].key, attempts[n].at, window, limit);
      (answers + [allowed], after)
  }

  ghost predicate InStep(admitted: map<string, seq<real>>, requests: map<string, seq<real>>,
                         clock: real, window: real)
  {
    forall k :: Tracks(Stamps(admitted, k), Stamps(requests, k), clock, window)
  }

  lemma {:induction false} StepStaysInStep(admitted: map<string, seq<real>>, requests: map<string, seq<real>>,
                                           clock: real, a: Attempt, window: real, limit: int)
    requires InStep(admitted, requests, clock, window) && clock <= a.at
    ensures Check(requests, a.key, a.at, window, limit).0 == Reference(admitted, a.key, a.at, window, limit).0
    ensures InStep(Reference(admitted, a.key, a.at, window, limit).1,
                   Check(requests, a.key, a.at, window, limit).1, a.at, window)
  {
    var (allowed, admitted') := Reference(admitted, a.key, a.at, window, limit);
    var requests' := Check(requests, a.key, a.at, window, limit).1;
    assert Tracks(Stamps(admitted, a.key), Stamps(requests, a.key), clock, window);
    CheckMatchesScan(Stamps(admitted, a.key), requests, a.key, clock, a.at, window, limit);
    forall k ensures Tracks(Stamps(admitted', k), Stamps(requests', k), a.at, window) {
      if k != a.key {
        assert Tracks(Stamps(admitted, k), Stamps(requests, k), clock, window);
        assert Stamps(admitted', k) == Stamps(admitted, k);
      }
    }
  }

  /** Every answer of every run is the one a scan of the whole history would give. */
  lemma {:induction false} RunMatchesReference(attempts: seq<Attempt>, window: real, limit: int, clock: real)
    requires Chronological(attempts)
    requires forall i :: 0 <= i < |attempts| ==> attempts[i].at <= clock
    ensures Run(attempts, window, limit).0 == RunReference(attempts, window, limit).0
    ensures InStep(RunReference(attempts, window, limit).1, Run(attempts, window, limit).1,
                   if attempts == [] then clock else attempts[|attempts| - 1].at, window)
  {
    if attempts != [] {
      var n := |attempts| - 1;
      var init, last := attempts[..n], attempts[n];
      RunMatchesReference(init, window, limit, last.at);
      StepStaysInStep(RunReference(init, window, limit).1, Run(init, window, limit).1,
                      if init == [] then last.at else init[n - 1].at, last, window, limit);
    }
  }

  // ---- The bound ----

  function Ones(times: seq<real>): seq<Entry> {
    seq(|times|, i requires 0 <= i < |times| => Entry(times[i], 1.0))
  }

  lemma {:induction false} CountIsTotal(times: seq<real>, p: real -> bool)
    ensures Count(times, p) as real == Total(Pick(Ones(times), p))
  {
    if times != [] {
      var n := |times| - 1;
      CountIsTotal(times[..n], p);
      assert Ones(times)[..n] == Ones(times[..n]);
      TotalAppend(Pick(Ones(times[..n]), p), Entry(times[n], 1.0));
    }
  }

  lemma AppendAdmits(times: seq<real>, clock: real, now: real, window: real, limit: int)
    requires Admitted(Ones(times), window, limit as real) && Ascending(times, clock) && clock <= now
    requires Count(times, Trailing(now, window)) < limit
    ensures Admitted(Ones(times + [now]), window, limit as real) && Ascending(times + [now], now)
  {
    assert Ones(times + [now])[..|times|] == Ones(times);
    CountIsTotal(times, Trailing(now, window));
    forall i, j | 0 <= i < j < |times + [now]| ensures (times + [now])[i] <= (times + [now])[j] {
      assert times[i] <= clock;
    }
  }

  lemma {:induction false} ReferenceAdmits(attempts: seq<Attempt>, window: real, limit: int, key: string)
    requires Chronological(attempts)
    ensures
      var times := Stamps(RunReference(attempts, window, limit).1, key);
      && Admitted(Ones(times), window, limit as real)
      && (times != [] ==> attempts != [] && Ascending(times, attempts[|attempts| - 1].at))
  {
    if attempts != [] {
      var n := |attempts| - 1;
      ReferenceAdmits(attempts[..n], window, limit, key);
      var times := Stamps(RunReference(attempts[..n], window, limit).1, key);
      var now := attempts[n].at;
      if attempts[n].key == key && Count(times, Trailing(now, window)) < limit {
        AppendAdmits(times, if n == 0 then now else attempts[n - 1].at, now, window, limit);
      }
    }
  }

  lemma CountWithin(times: seq<real>, clock: real, window: real, limit: int, p: real -> bool)
    requires Ascending(times, clock) && Admitted(Ones(times), window, limit as real)
    requires limit >= 0 && Within(p, window)
    ensures Count(times, p) <= limit
  {
    AdmittedBoundsEveryWindow(Ones(times), window, limit as real);
    CountIsTotal(times, p);
  }

  /** At most `limit` admissions for a key in any window of any run. */
  lemma AtMostLimitPerWindow(attempts: seq<Attempt>, window: real, limit: int, key: string, p: real -> bool)
    requires Chronological(attempts) && limit >= 0 && Within(p, window)
    ensures Count(Stamps(RunReference(attempts, window, limit).1, key), p) <= limit
  {
    ReferenceAdmits(attempts, window, limit, key);
    var times := Stamps(RunReference(attempts, window, limit).1, key);
    if times != [] {
      CountWithin(times, attempts[|attempts| - 1].at, window, limit, p);
    }
  }

  lemma {:induction false} NoneRecent(times: seq<real>, clock: real, now: real, window: real)
    requires Ascending(times, clock) && clock <= now - window
    ensures Count(times, Trailing(now, window)) == 0
  {
    if times != [] {
      NoneRecent(times[..|times| - 1], clock, now, window);
    }
  }

  /** The advertised Retry-After of one window is honest exactly when the limiter allows anything at all. */
  lemma RetryAfterIsHonest(admitted: map<string, seq<real>>, key: string, refusedAt: real,
                           now: real, window: real, limit: int)
    requires Ascending(Stamps(admitted, key), refusedAt) && now >= refusedAt + window
    ensures Reference(admitted, key, now, window, limit).0 <==> limit >= 1
  {
    NoneRecent(Stamps(admitted, key), refusedAt, now, window);
  }

  predicate Allowed(attempts: seq<Attempt>, k: nat, window: real, limit: int)
    requires k < |attempts|
  {
    Reference(RunReference(attempts[..k], window, limit).1, attempts[k].key, attempts[k].at, window, limit).0
  }

  /** Each answer of a run is the one given when its attempt was made. */
  lemma {:induction false} AnswersAreAllowed(attempts: seq<Attempt>, window: real, limit: int)
    ensures
      var answers := RunReference(attempts, window, limit).0;
      |answers| == |attempts| && forall k :: 0 <= k < |attempts| ==> answers[k] == Allowed(attempts, k, window, limit)
  {
    hide Reference;
    if attempts != [] {
      var n := |attempts| - 1;
      AnswersAreAllowed(attempts[..n], window, limit);
      forall k | 0 <= k < n ensures Allowed(attempts, k, window, limit) == Allowed(attempts[..n], k, window, limit) {
        assert attempts[..n][..k] == attempts[..k];
      }
    }
  }

  /** The key's record as an attempt finds it. */
  function StampsBefore(attempts: seq<Attempt>, k: nat, key: string, window: real, limit: int): seq<real>
    requires k <= |attempts|
  {
    Stamps(RunReference(attempts[..k], window, limit).1, key)
  }

  /** Attempts that are refused, or of other keys, leave a key's record as it was. */
  lemma {:induction false} RecordStays(attempts: seq<Attempt>, i: nat, j: nat, key: string, window: real, limit: int)
    requires i <= j <= |attempts|
    requires forall m :: i <= m < j && attempts[m].key == key ==> !Allowed(attempts, m, window, limit)
    ensures StampsBefore(attempts, j, key, window, limit) == StampsBefore(attempts, i, key, window, limit)
  {
    if i < j {
      RecordStays(attempts, i, j - 1, key, window, limit);
      assert attempts[..j][..j - 1] == attempts[..j - 1];
    }
  }

  /** In every run, an attempt at least one window after a refusal of the same key, with no admission of the key between
      them, is admitted: exactly when the limiter allows anything at all. */
  lemma RetryAfterHoldsInRuns(attempts: seq<Attempt>, i: nat, j: nat, window: real, limit: int)
    requires Chronological(attempts) && i < j < |attempts|
    requires attempts[j].key == attempts[i].key && attempts[j].at >= attempts[i].at + window
    requires forall m :: i <= m < j && attempts[m].key == attempts[i].key ==> !Allowed(attempts, m, window, limit)
    ensures
      var answers := RunReference(attempts, window, limit).0;
      && |answers| == |attempts| && (answers[j] <==> limit >= 1)
      && forall m :: i <= m < j && attempts[m].key == attempts[i].key ==> !answers[m]
  {
    hide Reference, RunReference, Stamps;
    var key := attempts[i].key;
    AnswersAreAllowed(attempts, window, limit);
    RecordStays(attempts, i, j, key, window, limit);
    EarlierStamps(attempts, i, window, limit);
    RetryAfterIsHonest(RunReference(attempts[..j], window, limit).1, key,
                       attempts[i].at, attempts[j].at, window, limit);
  }

  lemma EarlierStamps(attempts: seq<Attempt>, i: nat, window: real, limit: int)
    requires Chronological(attempts) && i < |attempts|
    ensures Ascending(StampsBefore(attempts, i, attempts[i].key, window, limit), attempts[i].at)
  {
    hide Stamps, RunReference;
    ReferenceAdmits(attempts[..i], window, limit, attempts[i].key);
    var times := StampsBefore(attempts, i, attempts[i].key, window, limit);
    if times != [] {
      assert attempts[..i][i - 1].at <= attempts[i].at;
    }
  }

  // ---- The limiter object ----

  method PopExpired(deque: seq<real>, cutoff: real) returns (live: seq<real>)
    ensures live == Purged(deque, cutoff)
  {
    live := deque;
    while live != [] && live[0] <= cutoff
      invariant Purged(live, cutoff) == Purged(deque, cutoff)
      decreases |live|
    {
      live := live[1..];
    }
  }

  class InMemoryRateLimiter {
    const limit: int
    const window: real
    var requests: map<string, seq<real>>
    ghost var admitted: map<string, seq<real>>
    ghost var clock: real

    ghost predicate Valid()
      reads this
    {
      InStep(admitted, requests, clock, window)
    }

    constructor (limit: int, window: real)
      ensures Valid() && this.limit == limit && this.window == window && admitted == map[]
    {
      this.limit, this.window := limit, window;
      requests, admitted, clock := map[], map[], 0.0;
    }

    /** Returns whether the request passes; a refusal is the HTTP 429 with Retry-After of one window. */
    method CheckKey(key: string, now: real) returns (allowed: bool)
      requires Valid() && now >= clock
      modifies this
      ensures Valid() && clock == now
      ensures requests == Check(old(requests), key, now, window, limit).1
      ensures (allowed, admitted) == Reference(old(admitted), key, now, window, limit)
    {
      hide InStep, Reference, Purged;
      ghost var after := Check(requests, key, now, window, limit).1;
      ghost var reference := Reference(admitted, key, now, window, limit).1;
      assert InStep(reference, after, now, window) && Answer(key, now) by {
        StepStaysInStep(admitted, requests, clock, Attempt(key, now), window, limit);
      }
      var deque := PopExpired(Stamps(requests, key), now - window);
      allowed := |deque| < limit;
      requests := if allowed then requests[key := deque + [now]] else requests[key := deque];
      assert requests == after;
      admitted := reference;
      clock := now;
    }

    ghost predicate Answer(key: string, now: real)
      reads this
    {
      Check(requests, key, now, window, limit).0 == Reference(admitted, key, now, window, limit).0
    }
  }
}
