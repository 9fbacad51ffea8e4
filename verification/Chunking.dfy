/** The overlapping word-boundary chunker: exactly when its loop ends, and what its chunks then cover. */
module Chunking {
  import opened Wrappers
  import opened PyText

  predicate ValidConfig(size: int, overlap: int) {
    size >= 100 && 0 <= overlap < size
  }

  /** The window's end: the last space in reach, if it lies past the start, else a full window. */
  function EndOf(content: string, size: int, start: int): int {
    var full := if start + size < |content| then start + size else |content|;
    if full < |content| then
      var boundary := RFindSpace(content, start, full);
      if boundary > start then boundary else full
    else full
  }

  function NextStart(content: string, size: int, overlap: int, start: int): int {
    EndOf(content, size, start) - overlap
  }

  /** The loop from `start` ends within `steps` further rounds. */
  predicate Halts(content: string, size: int, overlap: int, start: int, steps: nat)
    decreases steps
  {
    || start >= |content|
    || EndOf(content, size, start) == |content|
    || (steps > 0 && Halts(content, size, overlap, NextStart(content, size, overlap, start), steps - 1))
  }

  /** The first window reached from `start` whose successor would not start further on, if any. */
  function StallAt(content: string, size: int, overlap: int, start: nat): Option<nat>
    decreases |content| - start
  {
    if start >= |content| || EndOf(content, size, start) == |content| then None
    else if NextStart(content, size, overlap, start) <= start then Some(start)
    else StallAt(content, size, overlap, NextStart(content, size, overlap, start))
  }

  // ---- One window ----

  /** From a non-negative start that is not the last window: a space past the start, or a full window without one. */
  lemma EndMeaning(content: string, size: int, start: nat)
    requires size >= 1 && start < |content| && EndOf(content, size, start) != |content|
    ensures
      var e := EndOf(content, size, start);
      && start + size < |content| && start < e <= start + size
      && (forall k :: e < k < start + size ==> content[k] != ' ')
      && (e < start + size ==> content[e] == ' ')
      && (e == start + size ==> forall k :: start < k < start + size ==> content[k] != ' ')
  {
    LastSpaceMeaning(content, start, start + size);
  }

  lemma EndRange(content: string, size: int, start: nat)
    requires size >= 1 && start < |content|
    ensures start < EndOf(content, size, start) <= |content| && EndOf(content, size, start) <= start + size
  {
    if start + size < |content| {
      LastSpaceMeaning(content, start, start + size);
    }
  }

  /** A start before -1 in a document longer than a window ends at -1: the slice and the search both wrap round. */
  lemma EndFromNegative(content: string, size: int, start: int)
    requires |content| > size && -size <= start < -1
    ensures EndOf(content, size, start) == -1
  {
  }

  lemma EndFromMinusOne(content: string, size: int)
    requires |content| > size >= 1
    ensures EndOf(content, size, -1) == size - 1
  {
  }

  // ---- Termination, exactly ----

  lemma {:induction false} FixpointNeverHalts(content: string, size: int, overlap: int, start: int, steps: nat)
    requires start < |content| && EndOf(content, size, start) != |content|
    requires NextStart(content, size, overlap, start) == start
    ensures !Halts(content, size, overlap, start, steps)
  {
    if steps > 0 {
      FixpointNeverHalts(content, size, overlap, start, steps - 1);
    }
  }

  lemma {:induction false} SmoothHalts(content: string, size: int, overlap: int, start: nat)
    requires size >= 1 && StallAt(content, size, overlap, start) == None
    ensures Halts(content, size, overlap, start, if start < |content| then |content| - start else 0)
    decreases |content| - start
  {
    if start < |content| && EndOf(content, size, start) != |content| {
      var next := NextStart(content, size, overlap, start);
      SmoothHalts(content, size, overlap, next);
      var rest := if next < |content| then |content| - next else 0;
      HaltsLonger(content, size, overlap, next, rest, |content| - start - 1);
    }
  }

  lemma {:induction false} HaltsLonger(content: string, size: int, overlap: int, start: int, steps: nat, more: nat)
    requires Halts(content, size, overlap, start, steps) && steps <= more
    ensures Halts(content, size, overlap, start, more)
    decreases steps
  {
    if start < |content| && EndOf(content, size, start) != |content| {
      HaltsLonger(content, size, overlap, NextStart(content, size, overlap, start), steps - 1, more - 1);
    }
  }

  /** A loop that ends passes through its first stall and ends from there, in fewer rounds. */
  lemma {:induction false} HaltingPassesStall(content: string, size: int, overlap: int,
                                              start: nat, stall: nat, steps: nat)
    requires size >= 1 && StallAt(content, size, overlap, start) == Some(stall)
    requires Halts(content, size, overlap, start, steps)
    ensures steps > 0
    ensures exists rest: nat ::
      rest < steps && Halts(content, size, overlap, NextStart(content, size, overlap, stall), rest)
    decreases |content| - start
  {
    if NextStart(content, size, overlap, start) <= start {
      assert Halts(content, size, overlap, NextStart(content, size, overlap, stall), steps - 1);
    } else {
      HaltingPassesStall(content, size, overlap, NextStart(content, size, overlap, start), stall, steps - 1);
    }
  }

  lemma {:induction false} StallReached(content: string, size: int, overlap: int, start: nat, stall: nat, steps: nat)
    requires size >= 1 && StallAt(content, size, overlap, start) == Some(stall)
    requires Halts(content, size, overlap, NextStart(content, size, overlap, stall), steps)
    ensures Halts(content, size, overlap, start, steps + 1 + (|content| - start))
    ensures start <= stall < |content| && EndOf(content, size, stall) != |content|
    ensures NextStart(content, size, overlap, stall) <= stall
    decreases |content| - start
  {
    var next := NextStart(content, size, overlap, start);
    if next <= start {
      HaltsLonger(content, size, overlap, next, steps, steps + (|content| - start));
    } else {
      StallReached(content, size, overlap, next, stall, steps);
      HaltsLonger(content, size, overlap, next, steps + 1 + (|content| - next), steps + (|content| - start));
    }
  }

  lemma {:induction false} StallFacts(content: string, size: int, overlap: int, start: nat, stall: nat)
    requires size >= 1 && StallAt(content, size, overlap, start) == Some(stall)
    ensures stall < |content| && EndOf(content, size, stall) != |content|
    ensures NextStart(content, size, overlap, stall) <= stall
    decreases |content| - start
  {
    if NextStart(content, size, overlap, start) > start {
      StallFacts(content, size, overlap, NextStart(content, size, overlap, start), stall);
    }
  }

  /** After a stall the loop never ends, unless the boundary found is exactly overlap - 1. */
  lemma StallDiverges(content: string, size: int, overlap: int, stall: nat, steps: nat)
    requires ValidConfig(size, overlap) && stall < |content| && EndOf(content, size, stall) != |content|
    requires NextStart(content, size, overlap, stall) <= stall
    requires EndOf(content, size, stall) != overlap - 1
    ensures !Halts(content, size, overlap, NextStart(content, size, overlap, stall), steps)
  {
    var b := EndOf(content, size, stall);
    var next := b - overlap;
    EndMeaning(content, size, stall);
    if next >= 0 {
      LastSpaceMeaning(content, next, next + size);
      FixpointNeverHalts(content, size, overlap, next, steps);
    } else {
      EndFromNegative(content, size, next);
      EndFromNegative(content, size, -1 - overlap);
      FixpointNeverHalts(content, size, overlap, -1 - overlap, if steps == 0 then 0 else steps - 1);
    }
  }

  /** From -1 the loop emits nothing and resumes at size - 1 - overlap. */
  lemma HaltsFromMinusOne(content: string, size: int, overlap: int, steps: nat)
    requires ValidConfig(size, overlap) && |content| > size
    ensures Halts(content, size, overlap, -1, steps) <==>
      steps > 0 && Halts(content, size, overlap, size - 1 - overlap, steps - 1)
  {
    EndFromMinusOne(content, size);
  }

  /** If resuming at size - 1 - overlap stalls again, the loop never ends: it stalls for good or comes back. */
  lemma {:induction false} ResumedStallDiverges(content: string, size: int, overlap: int, stall: nat, steps: nat)
    requires ValidConfig(size, overlap) && |content| > size
    requires StallAt(content, size, overlap, size - 1 - overlap) == Some(stall)
    ensures !Halts(content, size, overlap, size - 1 - overlap, steps)
    decreases steps
  {
    var resume := size - 1 - overlap;
    if Halts(content, size, overlap, resume, steps) {
      HaltingPassesStall(content, size, overlap, resume, stall, steps);
      StallFacts(content, size, overlap, resume, stall);
      var rest: nat :| rest < steps && Halts(content, size, overlap, NextStart(content, size, overlap, stall), rest);
      if EndOf(content, size, stall) == overlap - 1 {
        HaltsFromMinusOne(content, size, overlap, rest);
        ResumedStallDiverges(content, size, overlap, stall, rest - 1);
      } else {
        StallDiverges(content, size, overlap, stall, rest);
      }
    }
  }

  /** No window on the way stalls; or the first that does finds its boundary at exactly overlap - 1, and none stalls
      after the loop resumes at size - 1 - overlap. */
  predicate Ends(content: string, size: int, overlap: int)
    requires ValidConfig(size, overlap)
  {
    match StallAt(content, size, overlap, 0)
    case None => true
    case Some(stall) =>
      EndOf(content, size, stall) == overlap - 1 && StallAt(content, size, overlap, size - 1 - overlap) == None
  }

  lemma ResumingHalts(content: string, size: int, overlap: int, stall: nat) returns (steps: nat)
    requires ValidConfig(size, overlap) && StallAt(content, size, overlap, 0) == Some(stall)
    requires EndOf(content, size, stall) == overlap - 1
    requires StallAt(content, size, overlap, size - 1 - overlap) == None
    ensures Halts(content, size, overlap, 0, steps)
  {
    hide EndOf;
    var resume := size - 1 - overlap;
    StallFacts(content, size, overlap, 0, stall);
    EndMeaning(content, size, stall);
    SmoothHalts(content, size, overlap, resume);
    var k: nat := |content| - resume;
    HaltsFromMinusOne(content, size, overlap, k + 1);
    StallReached(content, size, overlap, 0, stall, k + 1);
    steps := k + 2 + |content|;
  }

  lemma EndingDocumentsHalt(content: string, size: int, overlap: int) returns (steps: nat)
    requires ValidConfig(size, overlap) && Ends(content, size, overlap)
    ensures Halts(content, size, overlap, 0, steps)
  {
    match StallAt(content, size, overlap, 0)
    case None =>
      SmoothHalts(content, size, overlap, 0);
      steps := |content|;
    case Some(stall) =>
      steps := ResumingHalts(content, size, overlap, stall);
  }

  lemma HaltingDocumentsEnd(content: string, size: int, overlap: int, steps: nat)
    requires ValidConfig(size, overlap) && Halts(content, size, overlap, 0, steps)
    ensures Ends(content, size, overlap)
  {
    match StallAt(content, size, overlap, 0)
    case None =>
    case Some(stall) =>
      StallFacts(content, size, overlap, 0, stall);
      EndMeaning(content, size, stall);
      HaltingPassesStall(content, size, overlap, 0, stall, steps);
      var rest: nat :| rest < steps && Halts(content, size, overlap, NextStart(content, size, overlap, stall), rest);
      if EndOf(content, size, stall) != overlap - 1 {
        StallDiverges(content, size, overlap, stall, rest);
      } else {
        HaltsFromMinusOne(content, size, overlap, rest);
        match StallAt(content, size, overlap, size - 1 - overlap)
        case None =>
        case Some(again) => ResumedStallDiverges(content, size, overlap, again, rest - 1);
      }
  }

  /** The loop that `chunk_document` starts at 0 ends within `steps` rounds after the first. */
  predicate Returns(content: string, size: int, overlap: int, steps: nat) {
    Halts(content, size, overlap, 0, steps)
  }

  /** The chunker returns exactly on the documents that satisfy Ends; on all others it loops for ever. */
  lemma TerminatesExactly(content: string, size: int, overlap: int)
    requires ValidConfig(size, overlap)
    ensures (exists steps: nat :: Returns(content, size, overlap, steps)) <==> Ends(content, size, overlap)
  {
    if Ends(content, size, overlap) {
      var steps := EndingDocumentsHalt(content, size, overlap);
      assert Returns(content, size, overlap, steps);
    }
    if steps: nat :| Returns(content, size, overlap, steps) {
      HaltingDocumentsEnd(content, size, overlap, steps);
    }
  }

  /** An early space before a very long word: with the default sizes this document is never finished. */
  lemma LongWordNeverEnds(content: string)
    requires content == "a " + seq(600, i => 'x')
    ensures !Ends(content, 500, 80)
    ensures forall steps: nat :: !Returns(content, 500, 80, steps)
  {
    LastSpaceMeaning(content, 0, 500);
    assert content[1] == ' ' && forall k :: 1 < k < 500 ==> content[k] == 'x';
    assert EndOf(content, 500, 0) == 1;
    assert StallAt(content, 500, 80, 0) == Some(0);
    TerminatesExactly(content, 500, 80);
  }

  /** A boundary at overlap - 1: this document stalls and still ends. */
  lemma StalledDocumentCanEnd(content: string)
    requires content == seq(9, i => 'x') + " " + seq(95, i => 'x')
    ensures StallAt(content, 100, 10, 0) == Some(0) && Ends(content, 100, 10)
    ensures exists steps: nat :: Returns(content, 100, 10, steps)
  {
    LastSpaceMeaning(content, 0, 100);
    assert content[9] == ' ' && forall k :: 9 < k < 100 ==> content[k] == 'x';
    assert EndOf(content, 100, 0) == 9;
    assert EndOf(content, 100, 89) == |content|;
    TerminatesExactly(content, 100, 10);
  }

  // ---- What the windows cover ----

  datatype Window = Window(from: nat, to: nat)

  /** The windows from a start, as far as no window stalls. */
  function Windows(content: string, size: int, overlap: int, start: nat): seq<Window>
    requires size >= 1 && StallAt(content, size, overlap, start) == None
    decreases |content| - start
  {
    if start >= |content| then []
    else
      EndRange(content, size, start);
      var e := EndOf(content, size, start);
      [Window(start, e)] + if e == |content| then [] else Windows(content, size, overlap, e - overlap)
  }

  /** The later windows' texts, each without the characters it repeats. */
  function Tails(content: string, windows: seq<Window>, overlap: int): string {
    if windows == [] then []
    else Slice(content, windows[0].from + overlap, windows[0].to) + Tails(content, windows[1..], overlap)
  }

  /** The first window's text whole, then the tails. */
  function Stitch(content: string, windows: seq<Window>, overlap: int): string {
    if windows == [] then []
    else Slice(content, windows[0].from, windows[0].to) + Tails(content, windows[1..], overlap)
  }

  /** Each window is in range and at most `size` long, and the next starts `overlap` before its end,
      but past its start, and ends past its end. */
  ghost predicate Marching(windows: seq<Window>, size: int, overlap: int, length: nat) {
    windows == [] ||
    (&& windows[0].from < windows[0].to <= length && windows[0].to - windows[0].from <= size
     && (|windows| > 1 ==>
           && windows[1].from == windows[0].to - overlap
           && windows[0].from < windows[1].from && windows[0].to < windows[1].to)
     && Marching(windows[1..], size, overlap, length))
  }

  /** A window that starts past the previous start ends past the previous end. */
  lemma FollowingEnd(content: string, size: int, overlap: int, start: nat)
    requires size >= 1 && overlap >= 0 && start < |content| && EndOf(content, size, start) != |content|
    requires NextStart(content, size, overlap, start) > start
    requires StallAt(content, size, overlap, NextStart(content, size, overlap, start)) == None
    ensures
      var next := NextStart(content, size, overlap, start);
      next < |content| && EndOf(content, size, next) > EndOf(content, size, start)
  {
    EndMeaning(content, size, start);
    var next := NextStart(content, size, overlap, start);
    EndRange(content, size, next);
    if EndOf(content, size, next) != |content| {
      EndMeaning(content, size, next);
    }
  }

  lemma {:induction false} WindowsMarch(content: string, size: int, overlap: int, start: nat)
    requires size >= 1 && overlap >= 0 && StallAt(content, size, overlap, start) == None
    ensures Marching(Windows(content, size, overlap, start), size, overlap, |content|)
    decreases |content| - start
  {
    hide EndOf, Windows;
    if start >= |content| {
      NoWindows(content, size, overlap, start);
    } else {
      EndRange(content, size, start);
      FirstWindow(content, size, overlap, start);
      var e := EndOf(content, size, start);
      if e != |content| {
        FollowingEnd(content, size, overlap, start);
        WindowsMarch(content, size, overlap, e - overlap);
        FirstWindow(content, size, overlap, e - overlap);
      }
    }
  }

  lemma NoWindows(content: string, size: int, overlap: int, start: nat)
    requires size >= 1 && start >= |content|
    ensures StallAt(content, size, overlap, start) == None && Windows(content, size, overlap, start) == []
  {
  }

  lemma FirstWindow(content: string, size: int, overlap: int, start: nat)
    requires size >= 1 && overlap >= 0 && StallAt(content, size, overlap, start) == None && start < |content|
    ensures
      var windows, e := Windows(content, size, overlap, start), EndOf(content, size, start);
      && start < e <= |content| && windows != [] && windows[0] == Window(start, e)
      && windows[1..] == if e == |content| then [] else Windows(content, size, overlap, e - overlap)
  {
    EndRange(content, size, start);
  }

  /** The tails of windows that start at a repeat restore everything after the repeated part. */
  lemma {:induction false} TailsRestore(content: string, size: int, overlap: int, start: nat)
    requires size >= 1 && overlap >= 0 && StallAt(content, size, overlap, start) == None
    requires start < |content| && start + overlap <= EndOf(content, size, start) <= |content|
    ensures Tails(content, Windows(content, size, overlap, start), overlap) == content[start + overlap..]
    decreases |content| - start
  {
    hide EndOf;
    FirstWindow(content, size, overlap, start);
    var e := EndOf(content, size, start);
    if e != |content| {
      FollowingEnd(content, size, overlap, start);
      EndRange(content, size, e - overlap);
      TailsRestore(content, size, overlap, e - overlap);
    }
    TailsUnfold(content, Windows(content, size, overlap, start), overlap, start, e);
  }

  lemma TailsUnfold(content: string, windows: seq<Window>, overlap: int, start: nat, e: nat)
    requires windows != [] && windows[0] == Window(start, e) && 0 <= overlap && start + overlap <= e <= |content|
    requires Tails(content, windows[1..], overlap) == content[e..]
    ensures Tails(content, windows, overlap) == content[start + overlap..]
  {
    SliceThenRest(content, start + overlap, e);
  }

  lemma SliceThenRest(content: string, e: nat, f: nat)
    requires e <= f <= |content|
    ensures Slice(content, e, f) + content[f..] == content[e..]
  {
  }

  /** When no window stalls, windows march strictly forward and the content is the first window
      followed by each later one without its overlap. */
  lemma StitchingRestoresContent(content: string, size: int, overlap: int)
    requires ValidConfig(size, overlap) && StallAt(content, size, overlap, 0) == None
    ensures
      var windows := Windows(content, size, overlap, 0);
      && Marching(windows, size, overlap, |content|)
      && Stitch(content, windows, overlap) == content
  {
    hide EndOf;
    WindowsMarch(content, size, overlap, 0);
    if content != [] {
      FirstWindow(content, size, overlap, 0);
      var e := EndOf(content, size, 0);
      if e != |content| {
        FollowingEnd(content, size, overlap, 0);
        EndRange(content, size, e - overlap);
        TailsRestore(content, size, overlap, e - overlap);
      }
      SliceThenRest(content, 0, e);
      assert content[0..] == content;
    }
  }

  lemma {:induction false} SomeWindowHolds(content: string, size: int, overlap: int, start: nat, p: nat)
    returns (w: Window)
    requires size >= 1 && overlap >= 0 && StallAt(content, size, overlap, start) == None && start <= p < |content|
    ensures w in Windows(content, size, overlap, start) && w.from <= p < w.to <= |content|
    decreases |content| - start
  {
    hide EndOf;
    EndRange(content, size, start);
    var e := EndOf(content, size, start);
    if p < e {
      w := Window(start, e);
    } else {
      w := SomeWindowHolds(content, size, overlap, e - overlap, p);
    }
  }

  /** Positions lo..hi of the content are what stripping leaves of the window. */
  ghost predicate Kept(content: string, w: Window, lo: int, hi: int) {
    && w.from <= lo <= hi <= w.to <= |content|
    && Strip(content[w.from..w.to]) == content[lo..hi]
  }

  lemma SubSlice(content: string, from: nat, to: nat, lo: nat, hi: nat)
    requires from <= to <= |content| && lo <= hi <= to - from
    ensures content[from..to][lo..hi] == content[from + lo..from + hi]
  {
    var a, b := content[from..to][lo..hi], content[from + lo..from + hi];
    assert |a| == |b|;
    forall i | 0 <= i < |a| ensures a[i] == b[i] {
      assert a[i] == content[from..to][lo + i] == content[from + lo + i];
    }
  }

  lemma VisibleInWindow(content: string, w: Window, p: nat)
    requires w.from <= p < w.to <= |content| && !IsSpace(content[p])
    ensures exists lo, hi :: Kept(content, w, lo, hi) && lo <= p < hi
  {
    var text := content[w.from..w.to];
    var lo, hi := StripBounds(text);
    assert text[p - w.from] == content[p];
    SubSlice(content, w.from, w.to, lo, hi);
    assert Kept(content, w, w.from + lo, w.from + hi);
  }

  // ---- A check a caller can make on the document alone ----

  /** A stall needs a space-free run nearly as long as the part of a window that does not overlap. */
  lemma StallHasLongWord(content: string, size: int, overlap: int, stall: nat)
    requires ValidConfig(size, overlap) && stall < |content| && EndOf(content, size, stall) != |content|
    requires NextStart(content, size, overlap, stall) <= stall
    ensures exists i, j :: 0 <= i <= j <= |content| && j - i == size - 1 - overlap && ' ' !in content[i..j]
  {
    EndMeaning(content, size, stall);
    var e := EndOf(content, size, stall);
    assert ' ' !in content[e + 1..e + size - overlap];
  }

  /** Documents whose words are all shorter than that never stall. */
  lemma {:induction false} ShortWordsNeverStall(content: string, size: int, overlap: int, start: nat)
    requires ValidConfig(size, overlap)
    requires forall i, j :: 0 <= i <= j <= |content| && j - i == size - 1 - overlap ==> ' ' in content[i..j]
    ensures StallAt(content, size, overlap, start) == None
    decreases |content| - start
  {
    if start < |content| && EndOf(content, size, start) != |content| {
      if NextStart(content, size, overlap, start) <= start {
        StallHasLongWord(content, size, overlap, start);
      } else {
        ShortWordsNeverStall(content, size, overlap, NextStart(content, size, overlap, start));
      }
    }
  }

  // ---- The chunks ----

  function NonBlank(text: string): seq<string> {
    if text == [] then [] else [text]
  }

  function Piece(content: string, from: int, to: int): seq<string> {
    NonBlank(Strip(Slice(content, from, to)))
  }

  /** The stripped, non-empty texts the loop emits from `start` in that round and `steps` further ones at most,
      wrapped slices included. */
  function Pieces(content: string, size: int, overlap: int, start: int, steps: nat): seq<string>
    decreases steps
  {
    if start >= |content| then []
    else
      var e := EndOf(content, size, start);
      if e == |content| || steps == 0 then Piece(content, start, e)
      else Piece(content, start, e) + Pieces(content, size, overlap, e - overlap, steps - 1)
  }

  /** Rounds beyond the loop's end emit nothing. */
  lemma {:induction false} EnoughRounds(content: string, size: int, overlap: int, start: int, steps: nat, more: nat)
    requires Halts(content, size, overlap, start, steps) && steps <= more
    ensures Pieces(content, size, overlap, start, more) == Pieces(content, size, overlap, start, steps)
    decreases steps
  {
    hide EndOf, Piece;
    if start < |content| && EndOf(content, size, start) != |content| {
      EnoughRounds(content, size, overlap, NextStart(content, size, overlap, start), steps - 1, more - 1);
    }
  }

  /** The stripped, non-empty texts of windows, in order. */
  function TextsOf(content: string, windows: seq<Window>): seq<string> {
    if windows == [] then [] else Piece(content, windows[0].from, windows[0].to) + TextsOf(content, windows[1..])
  }

  /** When no window stalls, what is emitted is exactly the windows' texts, in order. */
  lemma {:induction false} PiecesAreWindows(content: string, size: int, overlap: int, start: nat, steps: nat)
    requires size >= 1 && overlap >= 0 && StallAt(content, size, overlap, start) == None
    requires Halts(content, size, overlap, start, steps)
    ensures Pieces(content, size, overlap, start, steps) == TextsOf(content, Windows(content, size, overlap, start))
    decreases steps
  {
    hide EndOf, Piece;
    if start < |content| {
      FirstWindow(content, size, overlap, start);
      if EndOf(content, size, start) != |content| {
        PiecesAreWindows(content, size, overlap, NextStart(content, size, overlap, start), steps - 1);
      }
    }
  }

  lemma FirstPieceKept(content: string, size: int, overlap: int, start: nat, steps: nat)
    requires size >= 1 && start < |content| && Halts(content, size, overlap, start, steps)
    requires start < EndOf(content, size, start) <= |content|
    requires Strip(content[start..EndOf(content, size, start)]) != []
    ensures Strip(content[start..EndOf(content, size, start)]) in Pieces(content, size, overlap, start, steps)
  {
    var e := EndOf(content, size, start);
    assert Slice(content, start, e) == content[start..e];
    assert Piece(content, start, e) == [Strip(content[start..e])];
  }

  lemma LaterPieceKept(content: string, size: int, overlap: int, start: nat, steps: nat, text: string)
    requires start < |content| && EndOf(content, size, start) != |content|
    requires Halts(content, size, overlap, start, steps)
    requires text in Pieces(content, size, overlap, NextStart(content, size, overlap, start), steps - 1)
    ensures text in Pieces(content, size, overlap, start, steps)
  {
  }

  /** A window after the first is one of those from the next start. */
  lemma LaterWindow(content: string, size: int, overlap: int, start: nat, w: Window)
    requires size >= 1 && overlap >= 0 && StallAt(content, size, overlap, start) == None
    requires w in Windows(content, size, overlap, start) && w != Window(start, EndOf(content, size, start))
    ensures
      var next := NextStart(content, size, overlap, start);
      && start < |content| && EndOf(content, size, start) != |content| && start < next <= |content|
      && StallAt(content, size, overlap, next) == None
      && w in Windows(content, size, overlap, next)
  {
    hide EndOf;
    FirstWindow(content, size, overlap, start);
    var windows := Windows(content, size, overlap, start);
    assert windows == [windows[0]] + windows[1..];
  }

  lemma {:induction false} WindowIsPiece(content: string, size: int, overlap: int, start: nat, steps: nat, w: Window)
    requires size >= 1 && overlap >= 0 && StallAt(content, size, overlap, start) == None
    requires Halts(content, size, overlap, start, steps)
    requires w in Windows(content, size, overlap, start) && w.from < w.to <= |content|
    requires Strip(content[w.from..w.to]) != []
    ensures Strip(content[w.from..w.to]) in Pieces(content, size, overlap, start, steps)
    decreases steps
  {
    if w == Window(start, EndOf(content, size, start)) {
      FirstPieceKept(content, size, overlap, start, steps);
    } else {
      LaterWindow(content, size, overlap, start, w);
      WindowIsPiece(content, size, overlap, NextStart(content, size, overlap, start), steps - 1, w);
      LaterPieceKept(content, size, overlap, start, steps, Strip(content[w.from..w.to]));
    }
  }

  /** When no window stalls, every character that is not white space lies inside a window, in the part of it that
      stripping leaves, and that part is emitted. */
  lemma EveryVisibleCharacterIsKept(content: string, size: int, overlap: int, steps: nat, p: nat)
    requires ValidConfig(size, overlap) && StallAt(content, size, overlap, 0) == None
    requires Returns(content, size, overlap, steps)
    requires p < |content| && !IsSpace(content[p])
    ensures exists w, lo, hi ::
      && w in Windows(content, size, overlap, 0) && Kept(content, w, lo, hi) && lo <= p < hi
      && content[lo..hi] in Pieces(content, size, overlap, 0, steps)
  {
    var w := SomeWindowHolds(content, size, overlap, 0, p);
    VisibleInWindow(content, w, p);
    var lo, hi :| Kept(content, w, lo, hi) && lo <= p < hi;
    WindowIsPiece(content, size, overlap, 0, steps, w);
    assert content[lo..hi] in Pieces(content, size, overlap, 0, steps);
  }

  lemma {:induction false} WindowsStartNoEarlier(content: string, size: int, overlap: int, start: nat, w: Window)
    requires size >= 1 && overlap >= 0 && StallAt(content, size, overlap, start) == None
    requires w in Windows(content, size, overlap, start)
    ensures start <= w.from
    decreases |content| - start
  {
    if w != Window(start, EndOf(content, size, start)) {
      LaterWindow(content, size, overlap, start, w);
      WindowsStartNoEarlier(content, size, overlap, NextStart(content, size, overlap, start), w);
    }
  }

  lemma NoEarlierWindow(content: string, size: int, overlap: int, start: nat)
    requires size >= 1 && overlap >= 0 && StallAt(content, size, overlap, start) == None
    ensures forall w :: w in Windows(content, size, overlap, start) ==> start <= w.from
  {
    forall w | w in Windows(content, size, overlap, start) ensures start <= w.from {
      WindowsStartNoEarlier(content, size, overlap, start, w);
    }
  }

  lemma PiecesFromMinusOne(content: string, size: int, overlap: int, steps: nat)
    requires ValidConfig(size, overlap) && |content| > size && Halts(content, size, overlap, -1, steps)
    ensures steps > 0 && Halts(content, size, overlap, size - 1 - overlap, steps - 1)
    ensures Pieces(content, size, overlap, -1, steps) == Pieces(content, size, overlap, size - 1 - overlap, steps - 1)
  {
    EndFromMinusOne(content, size);
    assert Piece(content, -1, size - 1) == [];
  }

  /** A window that follows another never finds its boundary at overlap - 1. */
  lemma LaterBoundariesAreFurther(content: string, size: int, overlap: int, start: nat)
    requires ValidConfig(size, overlap) && start < |content| && EndOf(content, size, start) != |content|
    requires NextStart(content, size, overlap, start) > start
    ensures EndOf(content, size, NextStart(content, size, overlap, start)) != overlap - 1
  {
    EndMeaning(content, size, start);
    var next: nat := NextStart(content, size, overlap, start);
    if EndOf(content, size, next) != |content| {
      EndMeaning(content, size, next);
    }
  }

  lemma {:induction false} LaterStallsAreFurther(content: string, size: int, overlap: int, start: nat, stall: nat)
    requires ValidConfig(size, overlap) && StallAt(content, size, overlap, start) == Some(stall)
    ensures stall == start || EndOf(content, size, stall) != overlap - 1
    decreases |content| - start
  {
    if NextStart(content, size, overlap, start) > start {
      LaterBoundariesAreFurther(content, size, overlap, start);
      LaterStallsAreFurther(content, size, overlap, NextStart(content, size, overlap, start), stall);
    }
  }

  lemma PiecesAroundSkip(content: string, size: int, overlap: int, steps: nat)
    requires ValidConfig(size, overlap) && |content| > size && Returns(content, size, overlap, steps)
    requires EndOf(content, size, 0) == overlap - 1 && 1 <= overlap < |content|
    ensures steps >= 2 && Halts(content, size, overlap, size - 1 - overlap, steps - 2)
    ensures Pieces(content, size, overlap, 0, steps)
         == NonBlank(Strip(content[..overlap - 1])) + Pieces(content, size, overlap, size - 1 - overlap, steps - 2)
  {
    hide EndOf, StallAt, Piece, NonBlank, Strip;
    HaltsFromMinusOne(content, size, overlap, steps - 1);
    PiecesFromMinusOne(content, size, overlap, steps - 1);
    PieceOfPrefix(content, overlap - 1);
  }

  lemma PieceOfPrefix(content: string, k: nat)
    requires k <= |content|
    ensures Piece(content, 0, k) == NonBlank(Strip(content[..k]))
  {
    assert Slice(content, 0, k) == content[..k];
  }

  /** A document with a stall that still ends stalls at its very first window, and is chunked as its first overlap - 1
      characters and then from size - 1 - overlap on. */
  lemma StallAtOverlapSkipsText(content: string, size: int, overlap: int, steps: nat)
    requires ValidConfig(size, overlap) && Returns(content, size, overlap, steps)
    requires StallAt(content, size, overlap, 0).Some?
    ensures StallAt(content, size, overlap, 0) == Some(0)
    ensures 2 <= overlap < |content| && steps >= 2
    ensures
      var resume := size - 1 - overlap;
      && Halts(content, size, overlap, resume, steps - 2)
      && StallAt(content, size, overlap, resume) == None
      && Pieces(content, size, overlap, 0, steps)
           == NonBlank(Strip(content[..overlap - 1])) + Pieces(content, size, overlap, resume, steps - 2)
      && forall w :: w in Windows(content, size, overlap, resume) ==> resume <= w.from
  {
    HaltingDocumentsEnd(content, size, overlap, steps);
    LaterStallsAreFurther(content, size, overlap, 0, StallAt(content, size, overlap, 0).value);
    hide Pieces, EndOf, NonBlank, Strip, Windows;
    StallFacts(content, size, overlap, 0, 0);
    EndMeaning(content, size, 0);
    PiecesAroundSkip(content, size, overlap, steps);
    NoEarlierWindow(content, size, overlap, size - 1 - overlap);
  }

  /** The windows such a document is cut into: the first overlap - 1 characters, and those from size - 1 - overlap. */
  function Cuts(content: string, size: int, overlap: int): seq<Window>
    requires ValidConfig(size, overlap) && overlap >= 1 && StallAt(content, size, overlap, size - 1 - overlap) == None
  {
    [Window(0, overlap - 1)] + Windows(content, size, overlap, size - 1 - overlap)
  }

  ghost predicate Covered(windows: seq<Window>, p: nat) {
    exists w :: w in windows && w.from <= p < w.to
  }

  lemma CutsCoverExactly(content: string, size: int, overlap: int, p: nat)
    requires ValidConfig(size, overlap) && overlap >= 1 && StallAt(content, size, overlap, size - 1 - overlap) == None
    requires p < |content|
    ensures Covered(Cuts(content, size, overlap), p) <==> !(overlap - 1 <= p < size - 1 - overlap)
  {
    hide StallAt;
    var resume: nat := size - 1 - overlap;
    var cuts := Cuts(content, size, overlap);
    NoEarlierWindow(content, size, overlap, resume);
    assert cuts[0] == Window(0, overlap - 1);
    if p >= resume {
      var w := SomeWindowHolds(content, size, overlap, resume, p);
      assert w in cuts;
    }
  }

  /** What a document that stalls and still ends loses: its chunks are the texts of its cuts, and a position lies in
      none of them exactly when it is from overlap - 1 up to size - 1 - overlap. With an overlap of at least half the
      size there is no such position, and nothing is lost. */
  lemma SkippedExactly(content: string, size: int, overlap: int, steps: nat)
    requires ValidConfig(size, overlap) && Returns(content, size, overlap, steps)
    requires StallAt(content, size, overlap, 0).Some?
    ensures overlap >= 1 && StallAt(content, size, overlap, size - 1 - overlap) == None
    ensures Pieces(content, size, overlap, 0, steps) == TextsOf(content, Cuts(content, size, overlap))
    ensures forall p: nat :: p < |content| ==>
      (Covered(Cuts(content, size, overlap), p) <==> !(overlap - 1 <= p < size - 1 - overlap))
    ensures (exists p: nat :: p < |content| && !Covered(Cuts(content, size, overlap), p)) <==> 2 * overlap < size
  {
    hide Pieces, Piece, Windows, EndOf, StallAt, Covered, Strip;
    StallAtOverlapSkipsText(content, size, overlap, steps);
    var resume: nat := size - 1 - overlap;
    PiecesAreWindows(content, size, overlap, resume, steps - 2);
    PieceOfPrefix(content, overlap - 1);
    TextsOfCuts(content, size, overlap);
    forall p: nat | p < |content|
      ensures Covered(Cuts(content, size, overlap), p) <==> !(overlap - 1 <= p < size - 1 - overlap)
    {
      CutsCoverExactly(content, size, overlap, p);
    }
    CutsCoverExactly(content, size, overlap, overlap - 1);
  }

  lemma TextsOfCuts(content: string, size: int, overlap: int)
    requires ValidConfig(size, overlap) && overlap >= 1 && StallAt(content, size, overlap, size - 1 - overlap) == None
    ensures TextsOf(content, Cuts(content, size, overlap)) ==
      Piece(content, 0, overlap - 1) + TextsOf(content, Windows(content, size, overlap, size - 1 - overlap))
  {
    hide Piece, Windows;
    var windows := Windows(content, size, overlap, size - 1 - overlap);
    assert Cuts(content, size, overlap)[1..] == windows;
  }

  /** Visible text is lost: this document's one 'y' is in neither of its two chunks. */
  lemma VisibleCharacterIsLost(content: string)
    requires content == seq(9, i => 'x') + " " + seq(40, i => 'x') + "y" + seq(54, i => 'x')
    ensures content[50] == 'y' && Returns(content, 100, 10, 2)
    ensures Pieces(content, 100, 10, 0, 2) == [seq(9, i => 'x'), seq(16, i => 'x')]
  {
    LastSpaceMeaning(content, 0, 100);
    assert content[9] == ' ' && forall k :: 9 < k < 100 ==> content[k] != ' ';
    assert EndOf(content, 100, 0) == 9;
    EndFromMinusOne(content, 100);
    assert EndOf(content, 100, 89) == |content|;
    assert Slice(content, 0, 9) == seq(9, i => 'x');
    assert Slice(content, -1, 99) == [];
    assert Slice(content, 89, 105) == seq(16, i => 'x');
    assert Pieces(content, 100, 10, 89, 0) == [seq(16, i => 'x')];
    assert Pieces(content, 100, 10, -1, 1) == [seq(16, i => 'x')];
  }

  datatype Chunk = Chunk(id: string, text: string)

  datatype Error = InvalidConfiguration

  function ChunkId(documentId: string, index: nat): string {
    documentId + "#chunk-" + Decimal(index)
  }

  function Number(documentId: string, texts: seq<string>): seq<Chunk> {
    if texts == [] then []
    else Number(documentId, texts[..|texts| - 1]) + [Chunk(ChunkId(documentId, |texts|), texts[|texts| - 1])]
  }

  lemma ChunkIdsAreDistinct(documentId: string, i: nat, j: nat)
    requires ChunkId(documentId, i) == ChunkId(documentId, j)
    ensures i == j
  {
    var prefix := documentId + "#chunk-";
    assert (prefix + Decimal(i))[|prefix|..] == Decimal(i);
    assert (prefix + Decimal(j))[|prefix|..] == Decimal(j);
    DecimalInjective(i, j);
  }

  method WindowEnd(content: string, size: int, start: int) returns (end: int)
    ensures end == EndOf(content, size, start)
  {
    end := if start + size < |content| then start + size else |content|;
    if end < |content| {
      var boundary := RFindSpace(content, start, end);
      if boundary > start {
        end := boundary;
      }
    }
  }

  lemma NumberGrows(documentId: string, texts: seq<string>, text: string)
    ensures Number(documentId, texts + NonBlank(text))
         == Number(documentId, texts) + if text == "" then [] else [Chunk(ChunkId(documentId, |texts| + 1), text)]
  {
    if text == "" {
      assert texts + NonBlank(text) == texts;
    } else {
      assert (texts + NonBlank(text))[..|texts|] == texts;
    }
  }

  /** Cuts one window and appends its chunk under the next index, unless stripping left nothing. */
  method CutWindow(documentId: string, content: string, size: int, start: int,
                   chunks: seq<Chunk>, index: nat, ghost texts: seq<string>)
    returns (end: int, more: seq<Chunk>, next: nat)
    requires chunks == Number(documentId, texts) && index == |texts| + 1
    ensures end == EndOf(content, size, start)
    ensures
      var after := texts + Piece(content, start, end);
      more == Number(documentId, after) && next == |after| + 1
  {
    end := WindowEnd(content, size, start);
    var text := Strip(Slice(content, start, end));
    NumberGrows(documentId, texts, text);
    if text != "" {
      more, next := chunks + [Chunk(ChunkId(documentId, index), text)], index + 1;
    } else {
      more, next := chunks, index;
    }
  }

  /** What is left to emit from `start` is `rest`, and `ends` says whether the loop then ends. */
  ghost predicate Remains(content: string, size: int, overlap: int, start: int, steps: nat,
                          rest: seq<string>, ends: bool)
  {
    ends == Halts(content, size, overlap, start, steps) && rest == Pieces(content, size, overlap, start, steps)
  }

  lemma Round(content: string, size: int, overlap: int, start: int, steps: nat, rest: seq<string>, ends: bool)
    returns (later: seq<string>)
    requires Remains(content, size, overlap, start, steps, rest, ends) && start < |content|
    ensures
      var end := EndOf(content, size, start);
      && rest == Piece(content, start, end) + later
      && if end == |content| then later == [] && ends
         else if steps == 0 then later == [] && !ends
         else Remains(content, size, overlap, end - overlap, steps - 1, later, ends)
  {
    hide EndOf, Piece;
    var end := EndOf(content, size, start);
    later := if end == |content| || steps == 0 then [] else Pieces(content, size, overlap, end - overlap, steps - 1);
  }

  lemma NothingRemains(content: string, size: int, overlap: int, start: int, steps: nat, rest: seq<string>, ends: bool)
    ensures Remains(content, size, overlap, start, steps, rest, ends) && start >= |content| ==> rest == [] && ends
  {
  }

  lemma Regroup(a: seq<string>, b: seq<string>, c: seq<string>)
    ensures a + (b + c) == (a + b) + c
  {
  }

  /** The chunking loop, watched for one round and `rounds` further ones: what it has emitted, and whether it ended. */
  method EmitChunks(documentId: string, content: string, size: int, overlap: int, rounds: nat)
    returns (chunks: seq<Chunk>, ended: bool)
    ensures ended == Halts(content, size, overlap, 0, rounds)
    ensures chunks == Number(documentId, Pieces(content, size, overlap, 0, rounds))
  {
    hide EndOf, Halts, Pieces;
    chunks := [];
    var start, index, left := 0, 1, rounds;
    ghost var texts: seq<string>, all := [], Pieces(content, size, overlap, 0, rounds);
    ghost var rest, ends := all, Halts(content, size, overlap, 0, rounds);
    while start < |content|
      invariant Remains(content, size, overlap, start, left, rest, ends)
      invariant all == texts + rest
      invariant chunks == Number(documentId, texts) && index == |texts| + 1
      decreases left
    {
      ghost var later := Round(content, size, overlap, start, left, rest, ends);
      var end;
      end, chunks, index := CutWindow(documentId, content, size, start, chunks, index, texts);
      Regroup(texts, Piece(content, start, end), later);
      texts, rest := texts + Piece(content, start, end), later;
      if end == |content| {
        break;
      }
      if left == 0 {
        assert texts + [] == texts;
        return chunks, false;
      }
      start, left := end - overlap, left - 1;
    }
    NothingRemains(content, size, overlap, start, left, rest, ends);
    assert texts + [] == texts;
    ended := true;
  }

  /** None while the loop has not returned; TerminatesExactly says on which documents it ever does. */
  method ChunkDocument(documentId: string, content: string, size: int, overlap: int, rounds: nat)
    returns (r: Option<Result<seq<Chunk>, Error>>)
    ensures r ==
      if !ValidConfig(size, overlap) then Some(Err(InvalidConfiguration))
      else if !Returns(content, size, overlap, rounds) then None
      else Some(Ok(Number(documentId, Pieces(content, size, overlap, 0, rounds))))
  {
    if size < 100 || overlap < 0 || overlap >= size {
      return Some(Err(InvalidConfiguration));
    }
    var chunks, ended := EmitChunks(documentId, content, size, overlap, rounds);
    r := if ended then Some(Ok(chunks)) else None;
  }
}
