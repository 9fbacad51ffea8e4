/** Time-stamped ledgers under a rolling limit: what admitting against the trailing window guarantees. */
module SlidingWindow {

  datatype Entry = Entry(at: real, cost: real)

  function Total(s: seq<Entry>): real {
    if s == [] then 0.0 else Total(s[..|s| - 1]) + s[|s| - 1].cost
  }

  /** The entries whose time satisfies p, oldest first. */
  function Pick(s: seq<Entry>, p: real -> bool): seq<Entry> {
    if s == [] then []
    else
      var init := Pick(s[..|s| - 1], p);
      if p(s[|s| - 1].at) then init + [s[|s| - 1]] else init
  }

  /** The window a check made at `now` looks at. */
  function Trailing(now: real, window: real): real -> bool {
    x => now - window < x <= now
  }

  function Spent(s: seq<Entry>, now: real, window: real): real {
    Total(Pick(s, Trailing(now, window)))
  }

  ghost predicate Ordered(s: seq<Entry>) {
    forall i, j :: 0 <= i < j < |s| ==> s[i].at <= s[j].at
  }

  ghost predicate NonNegative(s: seq<Entry>) {
    forall i :: 0 <= i < |s| ==> s[i].cost >= 0.0
  }

  /** No two times accepted by p are a full window apart: true of (a, a+W], of [a, a+W) and of any part of them. */
  ghost predicate Within(p: real -> bool, window: real) {
    forall x: real, y: real :: p(x) && p(y) ==> y - x < window
  }

  ghost predicate EveryWindowWithin(s: seq<Entry>, window: real, ceiling: real) {
    forall p: real -> bool :: Within(p, window) ==> Total(Pick(s, p)) <= ceiling
  }

  /** Each entry was let in by a check of the trailing window of the entries before it. */
  ghost predicate Admitted(s: seq<Entry>, window: real, ceiling: real) {
    s == [] ||
    var n := |s| - 1;
    && Admitted(s[..n], window, ceiling)
    && Spent(s[..n], s[n].at, window) + s[n].cost <= ceiling
  }

  lemma {:induction false} TotalNonNegative(s: seq<Entry>)
    requires NonNegative(s)
    ensures Total(s) >= 0.0
  {
    if s != [] {
      TotalNonNegative(s[..|s| - 1]);
    }
  }

  lemma {:induction false} PickNonNegative(s: seq<Entry>, p: real -> bool)
    requires NonNegative(s)
    ensures NonNegative(Pick(s, p))
  {
    if s != [] {
      PickNonNegative(s[..|s| - 1], p);
    }
  }

  lemma TotalAppend(s: seq<Entry>, e: Entry)
    ensures Total(s + [e]) == Total(s) + e.cost
  {
    assert (s + [e])[..|s|] == s;
  }

  /** Widening the selection, on the entries present, never lowers the total. */
  lemma {:induction false} PickGrows(s: seq<Entry>, p: real -> bool, q: real -> bool)
    requires NonNegative(s)
    requires forall i :: 0 <= i < |s| && p(s[i].at) ==> q(s[i].at)
    ensures Total(Pick(s, p)) <= Total(Pick(s, q))
  {
    if s != [] {
      var n := |s| - 1;
      PickGrows(s[..n], p, q);
      TotalAppend(Pick(s[..n], p), s[n]);
      TotalAppend(Pick(s[..n], q), s[n]);
      assert s[n].cost >= 0.0;
    }
  }

  /** Admission against the trailing window bounds every window, wherever it starts. */
  lemma {:induction false} AdmittedBoundsEveryWindow(s: seq<Entry>, window: real, ceiling: real)
    requires Ordered(s) && NonNegative(s) && Admitted(s, window, ceiling) && ceiling >= 0.0
    ensures EveryWindowWithin(s, window, ceiling)
  {
    forall p: real -> bool | Within(p, window) ensures Total(Pick(s, p)) <= ceiling {
      if s != [] {
        var n := |s| - 1;
        AdmittedBoundsEveryWindow(s[..n], window, ceiling);
        if p(s[n].at) {
          PickGrows(s[..n], p, Trailing(s[n].at, window));
          TotalAppend(Pick(s[..n], p), s[n]);
        }
      }
    }
  }

  lemma {:induction false} PickPrefix(s: seq<Entry>, n: nat, p: real -> bool)
    requires n <= |s| && NonNegative(s)
    ensures Total(Pick(s[..n], p)) <= Total(Pick(s, p))
  {
    if n < |s| {
      var m := |s| - 1;
      PickPrefix(s[..m], n, p);
      assert s[..m][..n] == s[..n];
      TotalAppend(Pick(s[..m], p), s[m]);
      assert s[m].cost >= 0.0;
    } else {
      assert s[..n] == s;
    }
  }

  /** The check refuses nothing it could let in: bounded windows mean every entry passes it. */
  lemma {:induction false} BoundedWindowsAreAdmitted(s: seq<Entry>, window: real, ceiling: real)
    requires Ordered(s) && NonNegative(s) && window > 0.0
    requires EveryWindowWithin(s, window, ceiling)
    ensures Admitted(s, window, ceiling)
  {
    if s != [] {
      var n := |s| - 1;
      forall p: real -> bool | Within(p, window) ensures Total(Pick(s[..n], p)) <= ceiling {
        PickPrefix(s, n, p);
      }
      BoundedWindowsAreAdmitted(s[..n], window, ceiling);
      var q := Trailing(s[n].at, window);
      assert Within(q, window);
      TotalAppend(Pick(s[..n], q), s[n]);
    }
  }

  /** Dropping expired entries from the front leaves exactly the trailing window. */
  lemma {:induction false} SuffixIsTrailing(s: seq<Entry>, k: nat, now: real, window: real)
    requires k <= |s|
    requires forall i :: 0 <= i < |s| ==> s[i].at <= now
    requires forall i :: 0 <= i < k ==> s[i].at <= now - window
    requires forall i :: k <= i < |s| ==> s[i].at > now - window
    ensures Pick(s, Trailing(now, window)) == s[k..]
  {
    if s != [] {
      var n := |s| - 1;
      if k <= n {
        SuffixIsTrailing(s[..n], k, now, window);
        assert s[k..] == s[..n][k..] + [s[n]];
      } else {
        SuffixIsTrailing(s[..n], n, now, window);
      }
    }
  }

  // ---- Closed windows ----

  /** The trailing window with entries exactly one window old counted too. */
  function ClosedTrailing(now: real, window: real): real -> bool {
    x => now - window <= x <= now
  }

  /** No two times accepted by p are more than a window apart: true of [a, a+W] and of any part of it. */
  ghost predicate ClosedWithin(p: real -> bool, window: real) {
    forall x: real, y: real :: p(x) && p(y) ==> y - x <= window
  }

  ghost predicate EveryClosedWindowWithin(s: seq<Entry>, window: real, ceiling: real) {
    forall p: real -> bool :: ClosedWithin(p, window) ==> Total(Pick(s, p)) <= ceiling
  }

  /** Each entry also fits when the check counts the entries exactly one window old. */
  ghost predicate AdmittedClosed(s: seq<Entry>, window: real, ceiling: real) {
    s == [] ||
    var n := |s| - 1;
    && AdmittedClosed(s[..n], window, ceiling)
    && Total(Pick(s[..n], ClosedTrailing(s[n].at, window))) + s[n].cost <= ceiling
  }

  lemma {:induction false} AdmittedClosedBounds(s: seq<Entry>, window: real, ceiling: real)
    requires Ordered(s) && NonNegative(s) && AdmittedClosed(s, window, ceiling) && ceiling >= 0.0
    ensures EveryClosedWindowWithin(s, window, ceiling)
  {
    forall p: real -> bool | ClosedWithin(p, window) ensures Total(Pick(s, p)) <= ceiling {
      if s != [] {
        var n := |s| - 1;
        AdmittedClosedBounds(s[..n], window, ceiling);
        if p(s[n].at) {
          PickGrows(s[..n], p, ClosedTrailing(s[n].at, window));
          TotalAppend(Pick(s[..n], p), s[n]);
        }
      }
    }
  }

  lemma {:induction false} BoundedClosedIsAdmitted(s: seq<Entry>, window: real, ceiling: real)
    requires Ordered(s) && NonNegative(s) && window > 0.0
    requires EveryClosedWindowWithin(s, window, ceiling)
    ensures AdmittedClosed(s, window, ceiling)
  {
    if s != [] {
      var n := |s| - 1;
      forall p: real -> bool | ClosedWithin(p, window) ensures Total(Pick(s[..n], p)) <= ceiling {
        PickPrefix(s, n, p);
      }
      BoundedClosedIsAdmitted(s[..n], window, ceiling);
      var q := ClosedTrailing(s[n].at, window);
      assert ClosedWithin(q, window);
      TotalAppend(Pick(s[..n], q), s[n]);
    }
  }

  /** The bound holds in every closed window exactly when each entry would also have passed a check that counts the
      entries exactly one window old. */
  lemma ClosedWindowsExactly(s: seq<Entry>, window: real, ceiling: real)
    requires Ordered(s) && NonNegative(s) && window > 0.0 && ceiling >= 0.0
    ensures EveryClosedWindowWithin(s, window, ceiling) <==> AdmittedClosed(s, window, ceiling)
  {
    if AdmittedClosed(s, window, ceiling) {
      AdmittedClosedBounds(s, window, ceiling);
    }
    if EveryClosedWindowWithin(s, window, ceiling) {
      BoundedClosedIsAdmitted(s, window, ceiling);
    }
  }

  ghost predicate NoneExactlyApart(s: seq<Entry>, window: real) {
    forall i, j :: 0 <= i < j < |s| ==> s[j].at - s[i].at != window
  }

  lemma {:induction false} SamePick(s: seq<Entry>, p: real -> bool, q: real -> bool)
    requires forall i :: 0 <= i < |s| ==> p(s[i].at) == q(s[i].at)
    ensures Pick(s, p) == Pick(s, q)
  {
    if s != [] {
      SamePick(s[..|s| - 1], p, q);
    }
  }

  /** In particular when no two entries lie exactly one window apart. */
  lemma {:induction false} NoneExactlyApartIsClosed(s: seq<Entry>, window: real, ceiling: real)
    requires Ordered(s) && Admitted(s, window, ceiling) && NoneExactlyApart(s, window)
    ensures AdmittedClosed(s, window, ceiling)
  {
    if s != [] {
      var n := |s| - 1;
      NoneExactlyApartIsClosed(s[..n], window, ceiling);
      SamePick(s[..n], Trailing(s[n].at, window), ClosedTrailing(s[n].at, window));
    }
  }

  /** The bound is for half-open windows: both ends of a closed one may be full. */
  lemma ClosedWindowCanHoldTwice(window: real, ceiling: real)
    requires window > 0.0 && ceiling > 0.0
    ensures
      var s := [Entry(0.0, ceiling), Entry(window, ceiling)];
      && Admitted(s, window, ceiling)
      && Total(Pick(s, x => 0.0 <= x <= window)) == 2.0 * ceiling
  {
    var a, b := Entry(0.0, ceiling), Entry(window, ceiling);
    var s := [a, b];
    assert s[..1] == [a] && [a][..0] == [];
    assert Pick([a], Trailing(window, window)) == [];
    var closed := x => 0.0 <= x <= window;
    assert Pick([a], closed) == [a];
    assert Pick(s, closed) == [a, b];
    assert Total([a]) == ceiling;
  }

  lemma EmptyTotal(p: real -> bool)
    ensures Total(Pick([], p)) == 0.0
  {
  }

  lemma PickedTotal(s: seq<Entry>, p: real -> bool)
    requires s != []
    ensures
      var n := |s| - 1;
      Total(Pick(s, p)) == Total(Pick(s[..n], p)) + if p(s[n].at) then s[n].cost else 0.0
  {
    TotalAppend(Pick(s[..|s| - 1], p), s[|s| - 1]);
  }

  function Scaled(m: real, x: real): real {
    m * x
  }

  lemma ScaledSum(a: real, b: real, c: real, d: real, m: real)
    ensures a <= Scaled(m, b) && c <= Scaled(m, d) ==> a + c <= Scaled(m, b + d)
    ensures Scaled(m, 0.0) == 0.0
  {
    assert m * (b + d) == m * b + m * d;
  }

  /** Scaling every cost by at most m scales any selection's total by at most m. */
  lemma {:induction false} ScaledTotal(s: seq<Entry>, t: seq<Entry>, m: real, p: real -> bool)
    requires |s| == |t|
    requires forall i :: 0 <= i < |s| ==> s[i].at == t[i].at && t[i].cost <= Scaled(m, s[i].cost)
    ensures Total(Pick(t, p)) <= Scaled(m, Total(Pick(s, p)))
  {
    hide Total, Pick, Scaled;
    EmptyTotal(p);
    if s == [] {
      ScaledSum(0.0, 0.0, 0.0, 0.0, m);
    } else {
      var n := |s| - 1;
      ScaledTotal(s[..n], t[..n], m, p);
      PickedTotal(s, p);
      PickedTotal(t, p);
      ScaledSum(Total(Pick(t[..n], p)), Total(Pick(s[..n], p)), t[n].cost, s[n].cost, m);
    }
  }
}
