/** The personal-data mask: greedy choice of spans, then splicing from the right. */
module PiiMasking {
  import opened Wrappers
  import opened Sorting
  import opened TextOrder

  /** What the analyzer reports; the recogniser itself is a parameter. */
  datatype Detection = Detection(entity: string, start: nat, end: nat, score: real)

  datatype Finding = Finding(entity: string, score: real)

  datatype ScanResult = ScanResult(text: string, findings: seq<Finding>)

  datatype Policy = Policy(mask: set<string>, block: set<string>)

  datatype Error = Blocked(entities: seq<string>)

  /** Every span is non-empty and lies in the text. */
  ghost predicate InRange(text: string, detections: seq<Detection>) {
    forall d :: d in detections ==> d.start < d.end <= |text|
  }

  // ---- Choosing spans ----

  /** The sort key (start, -score). */
  predicate Before(a: Detection, b: Detection) {
    a.start < b.start || (a.start == b.start && a.score >= b.score)
  }

  /** Left to right, every span that starts at or after the end of the last one taken. */
  function Select(ordered: seq<Detection>, occupied: int): seq<Detection> {
    if ordered == [] then []
    else if ordered[0].start < occupied then Select(ordered[1..], occupied)
    else [ordered[0]] + Select(ordered[1..], ordered[0].end)
  }

  function Chosen(detections: seq<Detection>): seq<Detection> {
    Select(Sort(Before, detections), -1)
  }

  lemma BeforeIsOrder()
    ensures TotalPreorder(Before)
  {
  }

  /** Spans in order, each ending before the next starts. */
  ghost predicate Apart(spans: seq<Detection>) {
    forall i, j :: 0 <= i < j < |spans| ==> spans[i].end <= spans[j].start
  }

  ghost predicate NonEmpty(spans: seq<Detection>) {
    forall d :: d in spans ==> d.start < d.end
  }

  lemma {:induction false} SelectedAreApart(ordered: seq<Detection>, occupied: int)
    requires NonEmpty(ordered)
    ensures Apart(Select(ordered, occupied))
    ensures forall d :: d in Select(ordered, occupied) ==> d in ordered && occupied <= d.start
  {
    if ordered != [] {
      var d := ordered[0];
      SelectedAreApart(ordered[1..], if d.start < occupied then occupied else d.end);
    }
  }

  /** s hides where d starts, and did not score lower if they start together. */
  predicate Shadows(s: Detection, d: Detection) {
    s.start <= d.start < s.end && (s.start == d.start ==> s.score >= d.score)
  }

  ghost predicate Shadowed(spans: seq<Detection>, d: Detection) {
    exists s :: s in spans && Shadows(s, d)
  }

  /** From the last span taken on, every detection is shadowed by a selected one. */
  lemma {:induction false} SelectShadowsAll(ordered: seq<Detection>, last: Detection, d: Detection)
    requires NonEmpty(ordered) && Sorted(Before, [last] + ordered) && d in ordered
    ensures Shadowed([last] + Select(ordered, last.end), d)
  {
    var head, rest := ordered[0], ordered[1..];
    assert ordered == [head] + rest;
    var all := [last] + ordered;
    assert all[0] == last && all[1] == head;
    if head.start < last.end {
      if d == head {
        assert Shadows(last, d);
      } else {
        SortedWithout(last, head, rest);
        SelectShadowsAll(rest, last, d);
      }
    } else if d == head {
      assert Shadows(head, d) && head in [last] + Select(ordered, last.end);
    } else {
      assert [head] + rest == all[1..];
      SelectShadowsAll(rest, head, d);
      var s :| s in [head] + Select(rest, head.end) && Shadows(s, d);
      assert s in [last] + Select(ordered, last.end);
    }
  }

  lemma SortedWithout(last: Detection, head: Detection, rest: seq<Detection>)
    requires Sorted(Before, [last] + ([head] + rest))
    ensures Sorted(Before, [last] + rest)
  {
    var all, fewer := [last] + ([head] + rest), [last] + rest;
    forall i, j | 0 <= i < j < |fewer| ensures Before(fewer[i], fewer[j]) {
      assert fewer[i] == all[if i == 0 then 0 else i + 1] && fewer[j] == all[j + 1];
    }
  }

  lemma SelectionShadowsAll(ordered: seq<Detection>, d: Detection)
    requires NonEmpty(ordered) && Sorted(Before, ordered) && d in ordered
    ensures Shadowed(Select(ordered, -1), d)
  {
    var head, rest := ordered[0], ordered[1..];
    assert ordered == [head] + rest;
    if d == head {
      assert Shadows(head, d);
    } else {
      SelectShadowsAll(rest, head, d);
    }
  }

  /** The chosen spans are disjoint, in order and among the detections, and every detection, chosen or not,
      starts inside a chosen one that starts no later and, starting level, scores no lower. */
  lemma ChosenSpans(detections: seq<Detection>)
    requires NonEmpty(detections)
    ensures Apart(Chosen(detections)) && forall d :: d in Chosen(detections) ==> d in detections
    ensures forall d :: d in detections ==> Shadowed(Chosen(detections), d)
  {
    BeforeIsOrder();
    SortSorts(Before, detections);
    SortKeepsMembers(Before, detections);
    SelectedAreApart(Sort(Before, detections), -1);
    forall d | d in detections ensures Shadowed(Chosen(detections), d) {
      SelectionShadowsAll(Sort(Before, detections), d);
    }
  }

  /** The order in which the analyzer reports is irrelevant unless two detections tie on start and score. */
  lemma ReportOrderIsIrrelevant(detections: seq<Detection>, shuffled: seq<Detection>)
    requires multiset(detections) == multiset(shuffled)
    requires forall a, b :: a in detections && b in detections && a.start == b.start && a.score == b.score ==> a == b
    ensures Chosen(detections) == Chosen(shuffled)
  {
    BeforeIsOrder();
    SortSorts(Before, detections);
    SortSorts(Before, shuffled);
    SortKeepsMembers(Before, detections);
    SortedIsUnique(Before, Sort(Before, detections), Sort(Before, shuffled));
  }

  // ---- Splicing ----

  function Placeholder(d: Detection): string {
    "<" + d.entity + ">"
  }

  function Splice(text: string, d: Detection): string
    requires d.start <= d.end <= |text|
  {
    text[..d.start] + Placeholder(d) + text[d.end..]
  }

  /** The gaps and placeholders from `from` on, left to right. */
  function Stitch(text: string, spans: seq<Detection>, from: nat): string
    requires from <= |text|
    requires forall i :: 0 <= i < |spans| ==> from <= spans[i].start <= spans[i].end <= |text|
    requires Apart(spans)
  {
    if spans == [] then text[from..]
    else
      assert forall i :: 1 <= i < |spans| ==> spans[1..][i - 1] == spans[i];
      text[from..spans[0].start] + Placeholder(spans[0]) + Stitch(text, spans[1..], spans[0].end)
  }

  ghost predicate Fits(text: string, spans: seq<Detection>, from: nat) {
    && from <= |text| && Apart(spans)
    && forall i :: 0 <= i < |spans| ==> from <= spans[i].start < spans[i].end <= |text|
  }

  lemma FitsRest(text: string, spans: seq<Detection>, from: nat)
    requires Fits(text, spans, from) && spans != []
    ensures Fits(text, spans[1..], spans[0].end)
  {
    var rest := spans[1..];
    assert forall i :: 0 <= i < |rest| ==> rest[i] == spans[i + 1];
  }

  lemma Regroup(a: string, b: string, c: string)
    ensures a + (b + c) == (a + b) + c
  {
  }

  lemma CutAt(text: string, from: nat, cut: nat, to: nat)
    requires from <= cut <= to <= |text|
    ensures text[from..to] == text[from..cut] + text[cut..to]
  {
  }

  /** A stitched text still begins with the untouched gap. */
  lemma StitchGap(text: string, spans: seq<Detection>, cut: nat)
    requires Fits(text, spans, cut)
    ensures Fits(text, spans, 0)
    ensures Stitch(text, spans, 0) == text[..cut] + Stitch(text, spans, cut)
  {
    hide Placeholder;
    if spans == [] {
      CutAt(text, 0, cut, |text|);
    } else {
      var d := spans[0];
      FitsRest(text, spans, cut);
      CutAt(text, 0, cut, d.start);
      var more := Stitch(text, spans[1..], d.end);
      Regroup(text[..cut], text[cut..d.start], Placeholder(d));
      Regroup(text[..cut], text[cut..d.start] + Placeholder(d), more);
    }
  }

  /** Splicing one more span into the text already stitched to its right. */
  lemma SpliceStitches(text: string, spans: seq<Detection>)
    requires Fits(text, spans, 0) && spans != []
    ensures Fits(text, spans[1..], 0)
    ensures
      var right := Stitch(text, spans[1..], 0);
      spans[0].end <= |right| && Splice(right, spans[0]) == Stitch(text, spans, 0)
  {
    FitsRest(text, spans, 0);
    var d, right := spans[0], Stitch(text, spans[1..], 0);
    StitchGap(text, spans[1..], d.end);
    assert right[d.end..] == Stitch(text, spans[1..], d.end);
    assert right[..d.start] == text[0..d.start];
  }

  // ---- Where everything ends up ----

  /** How far the spans before position p shift it. */
  function Shift(spans: seq<Detection>, p: nat): int {
    if spans == [] || p < spans[0].end then 0
    else |spans[0].entity| + 2 - (spans[0].end - spans[0].start) + Shift(spans[1..], p)
  }

  lemma PlaceholderLength(d: Detection)
    ensures |Placeholder(d)| == |d.entity| + 2
  {
  }

  ghost predicate Hidden(spans: seq<Detection>, p: nat) {
    exists s :: s in spans && s.start <= p < s.end
  }

  lemma AtAfter(a: string, b: string, k: nat)
    requires k < |b|
    ensures |a + b| == |a| + |b| && (a + b)[|a| + k] == b[k]
  {
  }

  lemma AtFront(a: string, b: string, k: nat)
    requires k < |a|
    ensures (a + b)[k] == a[k]
  {
  }

  /** The gap in front of the first span is copied. */
  lemma GapIsKept(text: string, spans: seq<Detection>, from: nat, p: nat)
    requires Fits(text, spans, from) && spans != [] && from <= p < spans[0].start
    ensures p - from < |Stitch(text, spans, from)| && Stitch(text, spans, from)[p - from] == text[p]
  {
    hide Placeholder;
    var d := spans[0];
    FitsRest(text, spans, from);
    var gap, more := text[from..d.start], Stitch(text, spans[1..], d.end);
    Regroup(gap, Placeholder(d), more);
    AtFront(gap, Placeholder(d) + more, p - from);
  }

  /** What follows the first span is shifted by its placeholder. */
  lemma PastFirst(text: string, spans: seq<Detection>, from: nat, k: nat)
    requires Fits(text, spans, from) && spans != []
    ensures Fits(text, spans[1..], spans[0].end)
    ensures
      var d, more := spans[0], Stitch(text, spans[1..], spans[0].end);
      var j := d.start - from + |Placeholder(d)| + k;
      k < |more| ==> j < |Stitch(text, spans, from)| && Stitch(text, spans, from)[j] == more[k]
  {
    hide Placeholder;
    var d := spans[0];
    FitsRest(text, spans, from);
    var more := Stitch(text, spans[1..], d.end);
    if k < |more| {
      AtAfter(text[from..d.start] + Placeholder(d), more, k);
    }
  }

  /** Where the character stands in the stitched text. */
  ghost predicate Stands(text: string, spans: seq<Detection>, from: nat, p: nat)
    requires Fits(text, spans, from) && from <= p < |text|
  {
    var k := p - from + Shift(spans, p);
    0 <= k < |Stitch(text, spans, from)| && Stitch(text, spans, from)[k] == text[p]
  }

  lemma StandsInGap(text: string, spans: seq<Detection>, from: nat, p: nat)
    requires Fits(text, spans, from) && spans != [] && from <= p < spans[0].start
    ensures Stands(text, spans, from, p)
  {
    hide Stitch;
    GapIsKept(text, spans, from, p);
  }

  lemma StandsPastFirst(text: string, spans: seq<Detection>, from: nat, p: nat)
    requires Fits(text, spans, from) && spans != [] && from <= spans[0].end <= p < |text|
    requires Fits(text, spans[1..], spans[0].end) && Stands(text, spans[1..], spans[0].end, p)
    ensures Stands(text, spans, from, p)
  {
    hide Stitch;
    PastFirst(text, spans, from, p - spans[0].end + Shift(spans[1..], p));
  }

  /** A character outside every span reappears, shifted by the spans before it. */
  lemma {:induction false} OutsideIsKept(text: string, spans: seq<Detection>, from: nat, p: nat)
    requires Fits(text, spans, from) && from <= p < |text| && !Hidden(spans, p)
    ensures Stands(text, spans, from, p)
  {
    if spans != [] {
      var d := spans[0];
      if p >= d.end {
        FitsRest(text, spans, from);
        assert !Hidden(spans[1..], p) by {
          assert forall s :: s in spans[1..] ==> s in spans;
        }
        OutsideIsKept(text, spans[1..], d.end, p);
        StandsPastFirst(text, spans, from, p);
      } else {
        assert d in spans;
        StandsInGap(text, spans, from, p);
      }
    }
  }

  lemma FirstPlaceholderStands(text: string, spans: seq<Detection>, from: nat)
    requires Fits(text, spans, from) && spans != []
    ensures
      var k, n := spans[0].start - from, |Placeholder(spans[0])|;
      k + n <= |Stitch(text, spans, from)| && Stitch(text, spans, from)[k..k + n] == Placeholder(spans[0])
  {
    hide Placeholder;
    var d := spans[0];
    FitsRest(text, spans, from);
    Middle(text[from..d.start], Placeholder(d), Stitch(text, spans[1..], d.end));
  }

  lemma PastFirstSlice(text: string, spans: seq<Detection>, from: nat, lo: nat, hi: nat)
    requires Fits(text, spans, from) && spans != [] && Fits(text, spans[1..], spans[0].end)
    requires lo <= hi <= |Stitch(text, spans[1..], spans[0].end)|
    ensures
      var j := spans[0].start - from + |Placeholder(spans[0])|;
      && j + hi <= |Stitch(text, spans, from)|
      && Stitch(text, spans, from)[j + lo..j + hi] == Stitch(text, spans[1..], spans[0].end)[lo..hi]
  {
    hide Placeholder;
    var d := spans[0];
    Sliced(text[from..d.start] + Placeholder(d), Stitch(text, spans[1..], d.end), lo, hi);
  }

  /** The i-th placeholder stands where the i-th span started, shifted by the spans before it. */
  lemma {:induction false} PlaceholderStands(text: string, spans: seq<Detection>, from: nat, i: nat)
    requires Fits(text, spans, from) && i < |spans|
    ensures
      var k := spans[i].start - from + Shift(spans[..i], spans[i].start);
      TagAt(Stitch(text, spans, from), k, spans[i].entity)
  {
    hide Placeholder, Stitch, TagAt;
    PlaceholderSlice(text, spans, from, i);
    PlaceholderIsTag(Stitch(text, spans, from),
                     spans[i].start - from + Shift(spans[..i], spans[i].start), spans[i]);
  }

  /** '<', the entity's name and '>' stand at position k. */
  ghost predicate TagAt(text: string, k: int, entity: string) {
    && 0 <= k && k + 1 + |entity| < |text|
    && text[k] == '<' && text[k + 1 + |entity|] == '>'
    && forall i :: 0 <= i < |entity| ==> text[k + 1 + i] == entity[i]
  }

  lemma PlaceholderIsTag(text: string, k: nat, d: Detection)
    requires k + |Placeholder(d)| <= |text| && text[k..k + |Placeholder(d)|] == Placeholder(d)
    ensures TagAt(text, k, d.entity)
  {
    var tag := text[k..k + |Placeholder(d)|];
    forall j | 0 <= j < |tag| ensures text[k + j] == Placeholder(d)[j] {
      assert tag[j] == text[k + j];
    }
    assert text[k + 0] == '<' && text[k + (1 + |d.entity|)] == '>';
    forall i | 0 <= i < |d.entity| ensures text[k + 1 + i] == d.entity[i] {
      assert text[k + (1 + i)] == Placeholder(d)[1 + i];
    }
  }

  lemma {:induction false} PlaceholderSlice(text: string, spans: seq<Detection>, from: nat, i: nat)
    requires Fits(text, spans, from) && i < |spans|
    ensures
      var k := spans[i].start - from + Shift(spans[..i], spans[i].start);
      && 0 <= k <= k + |Placeholder(spans[i])| <= |Stitch(text, spans, from)|
      && Stitch(text, spans, from)[k..k + |Placeholder(spans[i])|] == Placeholder(spans[i])
  {
    hide Placeholder, Stitch;
    var rest := spans[1..];
    FitsRest(text, spans, from);
    if i == 0 {
      FirstPlaceholderStands(text, spans, from);
    } else {
      PlaceholderLength(spans[0]);
      PlaceholderSlice(text, rest, spans[0].end, i - 1);
      assert spans[..i][1..] == rest[..i - 1] && rest[i - 1] == spans[i];
      var k := rest[i - 1].start - spans[0].end + Shift(rest[..i - 1], rest[i - 1].start);
      PastFirstSlice(text, spans, from, k, k + |Placeholder(rest[i - 1])|);
    }
  }

  lemma Middle(a: string, b: string, c: string)
    ensures |a + b + c| >= |a| + |b| && (a + b + c)[|a|..|a| + |b|] == b
  {
  }

  lemma Sliced(a: string, b: string, lo: nat, hi: nat)
    requires lo <= hi <= |b|
    ensures (a + b)[|a| + lo..|a| + hi] == b[lo..hi]
  {
  }

  lemma {:induction false} StitchLength(text: string, spans: seq<Detection>, from: nat)
    requires Fits(text, spans, from)
    ensures |Stitch(text, spans, from)| == |text| - from + Shift(spans, |text|)
  {
    if spans != [] {
      FitsRest(text, spans, from);
      StitchLength(text, spans[1..], spans[0].end);
    }
  }

  /** What masking makes of a text: each span is a tag naming its entity, everything outside the spans is as it was,
      both shifted by the spans before them, and there is nothing else. */
  ghost predicate Masked(text: string, spans: seq<Detection>, sanitized: string) {
    && |sanitized| == |text| + Shift(spans, |text|)
    && (forall i :: 0 <= i < |spans| ==>
          TagAt(sanitized, spans[i].start + Shift(spans[..i], spans[i].start), spans[i].entity))
    && (forall p :: 0 <= p < |text| && !Hidden(spans, p) ==>
          0 <= p + Shift(spans, p) < |sanitized| && sanitized[p + Shift(spans, p)] == text[p])
  }

  lemma StitchMasks(text: string, spans: seq<Detection>)
    requires Fits(text, spans, 0)
    ensures Masked(text, spans, Stitch(text, spans, 0))
  {
    hide Stitch, TagAt, Hidden, Shift;
    StitchLength(text, spans, 0);
    forall i | 0 <= i < |spans|
      ensures TagAt(Stitch(text, spans, 0), spans[i].start + Shift(spans[..i], spans[i].start), spans[i].entity)
    {
      PlaceholderStands(text, spans, 0, i);
    }
    forall p | 0 <= p < |text| && !Hidden(spans, p)
      ensures 0 <= p + Shift(spans, p) < |Stitch(text, spans, 0)|
      ensures Stitch(text, spans, 0)[p + Shift(spans, p)] == text[p]
    {
      OutsideIsKept(text, spans, 0, p);
    }
  }

  // ---- When detected text survives ----

  /** No detection runs past the end of a masked span, except into one that starts right there. */
  ghost predicate NothingSticksOut(detections: seq<Detection>, spans: seq<Detection>) {
    forall d, s :: d in detections && s in spans && d.start < s.end < d.end ==> StartsAt(spans, s.end)
  }

  ghost predicate StartsAt(spans: seq<Detection>, p: nat) {
    exists t :: t in spans && t.start == p
  }

  ghost predicate AllHidden(detections: seq<Detection>, spans: seq<Detection>) {
    forall d, p :: d in detections && d.start <= p < d.end ==> Hidden(spans, p)
  }

  lemma EndOutside(spans: seq<Detection>, s: Detection)
    requires Apart(spans) && NonEmpty(spans) && s in spans && !StartsAt(spans, s.end)
    ensures !Hidden(spans, s.end)
  {
    var i :| 0 <= i < |spans| && spans[i] == s;
    forall t | t in spans ensures !(t.start <= s.end < t.end) {
      var j :| 0 <= j < |spans| && spans[j] == t;
    }
  }

  /** Walking right from a hidden position, the first one not hidden is the end of a masked span. */
  lemma {:induction false} FirstOutside(spans: seq<Detection>, from: nat, p: nat) returns (s: Detection)
    requires NonEmpty(spans) && Hidden(spans, from) && !Hidden(spans, p) && from <= p
    ensures s in spans && from < s.end <= p && !StartsAt(spans, s.end)
    decreases p - from
  {
    var t :| t in spans && t.start <= from < t.end;
    assert !(t.start <= p < t.end);
    if Hidden(spans, t.end) {
      s := FirstOutside(spans, t.end, p);
    } else {
      s := t;
    }
  }

  lemma TuckedInIsHidden(detections: seq<Detection>, spans: seq<Detection>, d: Detection, p: nat)
    requires NonEmpty(spans) && NothingSticksOut(detections, spans)
    requires d in detections && Shadowed(spans, d) && d.start <= p < d.end
    ensures Hidden(spans, p)
  {
    if !Hidden(spans, p) {
      var s :| s in spans && Shadows(s, d);
      assert Hidden(spans, d.start);
      var last := FirstOutside(spans, d.start, p);
    }
  }

  lemma HiddenIsTuckedIn(detections: seq<Detection>, spans: seq<Detection>, d: Detection, s: Detection)
    requires Apart(spans) && NonEmpty(spans) && AllHidden(detections, spans)
    requires d in detections && s in spans && d.start < s.end < d.end
    ensures StartsAt(spans, s.end)
  {
    assert Hidden(spans, s.end);
    if !StartsAt(spans, s.end) {
      EndOutside(spans, s);
    }
  }

  lemma TuckedInMeansHidden(detections: seq<Detection>, spans: seq<Detection>)
    requires NonEmpty(spans) && NothingSticksOut(detections, spans)
    requires forall d :: d in detections ==> Shadowed(spans, d)
    ensures AllHidden(detections, spans)
  {
    forall d, p | d in detections && d.start <= p < d.end ensures Hidden(spans, p) {
      TuckedInIsHidden(detections, spans, d, p);
    }
  }

  lemma HiddenMeansTuckedIn(detections: seq<Detection>, spans: seq<Detection>)
    requires Apart(spans) && NonEmpty(spans) && AllHidden(detections, spans)
    ensures NothingSticksOut(detections, spans)
  {
    forall d, s | d in detections && s in spans && d.start < s.end < d.end ensures StartsAt(spans, s.end) {
      HiddenIsTuckedIn(detections, spans, d, s);
    }
  }

  /** Every detected character is hidden exactly when nothing sticks out. */
  lemma DetectedTextIsHidden(detections: seq<Detection>)
    requires NonEmpty(detections)
    ensures AllHidden(detections, Chosen(detections)) <==> NothingSticksOut(detections, Chosen(detections))
  {
    var spans := Chosen(detections);
    ChosenSpans(detections);
    if NothingSticksOut(detections, spans) {
      TuckedInMeansHidden(detections, spans);
    }
    if AllHidden(detections, spans) {
      HiddenMeansTuckedIn(detections, spans);
    }
  }

  /** Detections that end inside whichever earlier one they overlap are always hidden in full. */
  lemma NestedDetectionsAreHidden(detections: seq<Detection>)
    requires NonEmpty(detections)
    requires forall a, b :: a in detections && b in detections && Before(a, b) && b.start < a.end ==> b.end <= a.end
    ensures AllHidden(detections, Chosen(detections))
  {
    var spans := Chosen(detections);
    ChosenSpans(detections);
    forall d, p | d in detections && d.start <= p < d.end ensures Hidden(spans, p) {
      var s :| s in spans && Shadows(s, d);
      assert Before(s, d);
    }
  }

  /** Two detections that only partly overlap: the tail of the later one is released unmasked. */
  lemma OverlapReleasesTail(text: string, a: Detection, b: Detection)
    requires a.start < b.start < a.end < b.end <= |text|
    ensures Chosen([a, b]) == [a]
    ensures Fits(text, [a], 0) && Stitch(text, [a], 0) == text[..a.start] + Placeholder(a) + text[a.end..]
  {
    assert Sort(Before, [b]) == [b];
    assert Sort(Before, [a, b]) == [a, b];
    assert Select([b], a.end) == [];
  }

  // ---- The detector ----

  function BlockedIn(detections: seq<Detection>, policy: Policy): seq<string> {
    if detections == [] then []
    else
      var entity := detections[0].entity;
      (if entity in policy.block then [entity] else []) + BlockedIn(detections[1..], policy)
  }

  lemma {:induction false} BlockedInMeaning(detections: seq<Detection>, policy: Policy, entity: string)
    ensures entity in BlockedIn(detections, policy)
       <==> entity in policy.block && exists d :: d in detections && d.entity == entity
  {
    if detections != [] {
      BlockedInMeaning(detections[1..], policy, entity);
      assert detections == [detections[0]] + detections[1..];
    }
  }

  /** One finding for each span, in order, with the span's entity and score. */
  ghost predicate Reports(findings: seq<Finding>, spans: seq<Detection>) {
    && |findings| == |spans|
    && forall i :: 0 <= i < |spans| ==> findings[i].entity == spans[i].entity && findings[i].score == spans[i].score
  }

  /** The selection loop. */
  method ChooseSpans(ordered: seq<Detection>) returns (replacements: seq<Detection>, findings: seq<Finding>)
    ensures replacements == Select(ordered, -1) && Reports(findings, Select(ordered, -1))
  {
    replacements, findings := [], [];
    var occupiedUntil: int := -1;
    for k := 0 to |ordered|
      invariant replacements + Select(ordered[k..], occupiedUntil) == Select(ordered, -1)
      invariant Reports(findings, replacements)
    {
      var d := ordered[k];
      assert ordered[k..][0] == d && ordered[k..][1..] == ordered[k + 1..];
      if d.start >= occupiedUntil {
        replacements := replacements + [d];
        findings := findings + [Finding(d.entity, d.score)];
        occupiedUntil := d.end;
      }
    }
  }

  predicate StartsLater(a: Detection, b: Detection) {
    a.start >= b.start
  }

  function Reversed(s: seq<Detection>): seq<Detection> {
    seq(|s|, i requires 0 <= i < |s| => s[|s| - 1 - i])
  }

  lemma {:induction false} ReversedPermutes(s: seq<Detection>)
    ensures multiset(Reversed(s)) == multiset(s)
  {
    if s != [] {
      ReversedPermutes(s[1..]);
      assert Reversed(s) == Reversed(s[1..]) + [s[0]];
      assert s == [s[0]] + s[1..];
    }
  }

  lemma SameStartSameSpan(spans: seq<Detection>, x: Detection, y: Detection)
    requires Apart(spans) && NonEmpty(spans) && x in spans && y in spans && x.start == y.start
    ensures x == y
  {
    var i :| 0 <= i < |spans| && spans[i] == x;
    var j :| 0 <= j < |spans| && spans[j] == y;
  }

  lemma StartsSeparate(spans: seq<Detection>)
    requires Apart(spans) && NonEmpty(spans)
    ensures Antisymmetric(StartsLater, Reversed(spans))
  {
    forall x, y | x in Reversed(spans) && y in Reversed(spans) && StartsLater(x, y) && StartsLater(y, x)
      ensures x == y
    {
      SameStartSameSpan(spans, x, y);
    }
  }

  lemma ReversedDescends(spans: seq<Detection>)
    requires Apart(spans) && NonEmpty(spans)
    ensures Sorted(StartsLater, Reversed(spans))
  {
    assert forall i :: 0 <= i < |spans| ==> spans[i] in spans;
  }

  /** Sorting the chosen spans by descending start reverses them. */
  lemma DescendingReverses(spans: seq<Detection>)
    requires Apart(spans) && NonEmpty(spans)
    ensures Sort(StartsLater, spans) == Reversed(spans)
  {
    assert TotalPreorder(StartsLater);
    SortSorts(StartsLater, spans);
    ReversedPermutes(spans);
    StartsSeparate(spans);
    ReversedDescends(spans);
    hide Sort, Sorted, Reversed, Antisymmetric;
    SortedIsUnique(StartsLater, Reversed(spans), Sort(StartsLater, spans));
  }

  /** The splicing loop, right to left, yields the left-to-right stitch. */
  method SpliceAll(text: string, spans: seq<Detection>) returns (sanitized: string)
    requires Fits(text, spans, 0)
    ensures sanitized == Stitch(text, spans, 0)
  {
    var descending := Sort(StartsLater, spans);
    DescendingReverses(spans);
    sanitized := text;
    for k := 0 to |descending|
      invariant Fits(text, spans[|spans| - k..], 0)
      invariant sanitized == Stitch(text, spans[|spans| - k..], 0)
    {
      var d := descending[k];
      var i := |spans| - k - 1;
      assert spans[i..][0] == d && spans[i..][1..] == spans[i + 1..];
      FitsTail(text, spans, i);
      SpliceStitches(text, spans[i..]);
      sanitized := sanitized[..d.start] + Placeholder(d) + sanitized[d.end..];
    }
    assert spans[0..] == spans;
  }

  lemma FitsTail(text: string, spans: seq<Detection>, i: nat)
    requires Fits(text, spans, 0) && i <= |spans|
    ensures Fits(text, spans[i..], 0)
  {
    var rest := spans[i..];
    assert forall j :: 0 <= j < |rest| ==> rest[j] == spans[i + j];
  }

  lemma ChosenFit(text: string, detections: seq<Detection>)
    requires InRange(text, detections)
    ensures Fits(text, Chosen(detections), 0)
  {
    ChosenSpans(detections);
  }

  /** A scan lets text through unchanged only when there is nothing to look for; it refuses naming every blocked
      type found; otherwise the chosen spans are replaced, with one finding each, in order. */
  method Scan(text: string, policy: Policy, detections: seq<Detection>) returns (r: Result<ScanResult, Error>)
    requires InRange(text, detections)
    ensures Fits(text, Chosen(detections), 0)
    ensures
      if text == "" || policy.mask + policy.block == {} then r == Ok(ScanResult(text, []))
      else if exists d :: d in detections && d.entity in policy.block then
        && r.Err? && Sorted(StringLe, r.error.entities) && NoRepeats(r.error.entities)
        && forall e :: e in r.error.entities <==> e in policy.block && exists d :: d in detections && d.entity == e
      else
        && r.Ok? && r.value.text == Stitch(text, Chosen(detections), 0)
        && Masked(text, Chosen(detections), r.value.text)
        && Reports(r.value.findings, Chosen(detections))
  {
    hide Masked, Reports, Stitch, Sort, Select, Distinct, SortedSet, Fits;
    ChosenFit(text, detections);
    if text == "" || policy.mask + policy.block == {} {
      return Ok(ScanResult(text, []));
    }
    var blocked := SortedSet(BlockedIn(detections, policy));
    SortedSetMeaning(BlockedIn(detections, policy));
    forall e ensures e in blocked <==> e in policy.block && exists d :: d in detections && d.entity == e {
      BlockedInMeaning(detections, policy, e);
    }
    if blocked != [] {
      assert blocked[0] in blocked;
      return Err(Blocked(blocked));
    }
    var spans, findings := ChooseSpans(Sort(Before, detections));
    var sanitized := SpliceAll(text, spans);
    StitchMasks(text, spans);
    r := Ok(ScanResult(sanitized, findings));
  }
}
