/** The citation scanner and the groundedness report built on it. */
module Citations {
  import opened PyText
  import opened Rounding
  import opened TextOrder
  import Tokens
  import Chunking
  import ChunkKeys

  // ---- Scanning: \[([A-Za-z0-9\-]+#chunk-\d+)\] ----

  predicate IsIdChar(c: char) {
    'A' <= c <= 'Z' || 'a' <= c <= 'z' || '0' <= c <= '9' || c == '-'
  }

  function IdRun(s: string): (n: nat)
    ensures n <= |s|
  {
    if s != [] && IsIdChar(s[0]) then 1 + IdRun(s[1..]) else 0
  }

  function DigitRun(s: string): (n: nat)
    ensures n <= |s|
  {
    if s != [] && IsDigit(s[0]) then 1 + DigitRun(s[1..]) else 0
  }

  const MARK := "#chunk-"

  /** Length of the id at the front of s, or 0. Both runs are maximal: what must follow each cannot belong to it. */
  function IdLength(s: string): (k: nat)
    ensures k <= |s|
  {
    var n := IdRun(s);
    if n == 0 || !(MARK <= s[n..]) then 0
    else
      var m := DigitRun(s[n + |MARK|..]);
      if m == 0 then 0 else n + |MARK| + m
  }

  /** The id whose citation stands at the front of s, or the empty string. */
  function IdAt(s: string): string {
    if s == [] || s[0] != '[' then []
    else
      var k := IdLength(s[1..]);
      if k + 1 < |s| && s[k + 1] == ']' then s[1..k + 1] else []
  }

  function Cite(id: string): string {
    "[" + id + "]"
  }

  /** What the pattern's group matches. */
  ghost predicate ValidId(id: string) {
    exists n, m :: ValidSplit(id, n, m)
  }

  /** n characters of the class [A-Za-z0-9-], the mark, and m digits, the classes by their codes. */
  ghost predicate ValidSplit(id: string, n: int, m: int) {
    && n > 0 && m > 0 && |id| == n + 7 + m
    && (forall i :: 0 <= i < n ==>
          var c := id[i] as int; 65 <= c <= 90 || 97 <= c <= 122 || 48 <= c <= 57 || c == 45)
    && id[n..n + 7] == "#chunk-"
    && forall i :: n + 7 <= i < |id| ==> 48 <= id[i] as int <= 57
  }

  lemma {:induction false} IdRunMeaning(s: string)
    ensures forall i :: 0 <= i < IdRun(s) ==> IsIdChar(s[i])
  {
    if s != [] && IsIdChar(s[0]) {
      IdRunMeaning(s[1..]);
    }
  }

  lemma {:induction false} DigitRunMeaning(s: string)
    ensures forall i :: 0 <= i < DigitRun(s) ==> IsDigit(s[i])
  {
    if s != [] && IsDigit(s[0]) {
      DigitRunMeaning(s[1..]);
    }
  }

  lemma IdLengthMeaning(s: string)
    requires IdLength(s) > 0
    ensures ValidId(s[..IdLength(s)])
  {
    var n := IdRun(s);
    var digits := s[n + |MARK|..];
    var m := DigitRun(digits);
    IdRunMeaning(s);
    DigitRunMeaning(digits);
    var id := s[..n + |MARK| + m];
    assert id[n..n + |MARK|] == s[n..][..|MARK|];
    assert forall i :: n + |MARK| <= i < |id| ==> id[i] == digits[i - n - |MARK|];
    assert ValidSplit(id, n, m);
  }

  lemma Bracketed(s: string, k: nat)
    requires k + 1 < |s| && s[0] == '[' && s[k + 1] == ']'
    ensures s[1..][..k] == s[1..k + 1] && s[..k + 2] == Cite(s[1..k + 1])
  {
  }

  lemma IdAtMeaning(s: string)
    requires IdAt(s) != []
    ensures ValidId(IdAt(s)) && |IdAt(s)| + 2 <= |s| && s[..|IdAt(s)| + 2] == Cite(IdAt(s))
  {
    hide IdLength, ValidId, Cite;
    var k := IdLength(s[1..]);
    Bracketed(s, k);
    IdLengthMeaning(s[1..]);
  }

  lemma {:induction false} IdRunOf(a: string, rest: string)
    requires (forall i :: 0 <= i < |a| ==> IsIdChar(a[i])) && (rest == [] || !IsIdChar(rest[0]))
    ensures IdRun(a + rest) == |a|
  {
    if a == [] {
      assert a + rest == rest;
    } else {
      IdRunOf(a[1..], rest);
      assert (a + rest)[1..] == a[1..] + rest;
    }
  }

  lemma {:induction false} DigitRunOf(a: string, rest: string)
    requires (forall i :: 0 <= i < |a| ==> IsDigit(a[i])) && (rest == [] || !IsDigit(rest[0]))
    ensures DigitRun(a + rest) == |a|
  {
    if a == [] {
      assert a + rest == rest;
    } else {
      DigitRunOf(a[1..], rest);
      assert (a + rest)[1..] == a[1..] + rest;
    }
  }

  lemma IdLengthOf(id: string, rest: string)
    requires ValidId(id) && (rest == [] || !IsDigit(rest[0]))
    ensures IdLength(id + rest) == |id|
  {
    var n, m :| ValidSplit(id, n, m);
    hide IdRun, DigitRun, ValidId;
    var doc, digits := id[..n], id[n + |MARK|..];
    PartsOf(id, rest, n);
    IdRunOf(doc, MARK + (digits + rest));
    DigitRunOf(digits, rest);
    var whole := id + rest;
    assert IdRun(whole) == n && MARK <= whole[n..] && DigitRun(whole[n + |MARK|..]) == m;
  }

  lemma PartsOf(id: string, rest: string, n: nat)
    requires n + |MARK| <= |id| && id[n..n + |MARK|] == MARK
    ensures
      var doc, digits, whole := id[..n], id[n + |MARK|..], id + rest;
      && whole == doc + (MARK + (digits + rest))
      && MARK <= whole[n..] && whole[n + |MARK|..] == digits + rest
  {
    assert id == id[..n] + MARK + id[n + |MARK|..];
    assert (id + rest)[n..][..|MARK|] == id[n..n + |MARK|];
  }

  /** A printed citation is recognised whatever follows it. */
  lemma IdAtCite(id: string, after: string)
    requires ValidId(id)
    ensures IdAt(Cite(id) + after) == id
  {
    IdLengthOf(id, "]" + after);
    assert (Cite(id) + after)[1..] == id + ("]" + after);
    assert (Cite(id) + after)[1..|id| + 1] == id;
  }

  datatype Segment = Text(c: char) | Citation(id: string)

  /** One left-to-right, non-overlapping scan. */
  function Scan(s: string): seq<Segment>
    decreases |s|
  {
    if s == [] then []
    else
      var id := IdAt(s);
      if id == [] then [Text(s[0])] + Scan(s[1..])
      else IdAtMeaning(s); [Citation(id)] + Scan(s[|id| + 2..])
  }

  /** `findall`: the ids found, in order. */
  function Found(segments: seq<Segment>): seq<string> {
    if segments == [] then []
    else (if segments[0].Citation? then [segments[0].id] else []) + Found(segments[1..])
  }

  /** `sub("", ...)`: what is left. */
  function Prose(segments: seq<Segment>): string {
    if segments == [] then []
    else (if segments[0].Text? then [segments[0].c] else []) + Prose(segments[1..])
  }

  function Render(segments: seq<Segment>): string {
    if segments == [] then []
    else (if segments[0].Text? then [segments[0].c] else Cite(segments[0].id)) + Render(segments[1..])
  }

  function Findings(answer: string): seq<string> {
    Found(Scan(answer))
  }

  function Stripped(answer: string): string {
    Prose(Scan(answer))
  }

  lemma ScanText(s: string)
    requires s != [] && IdAt(s) == []
    ensures Scan(s) == [Text(s[0])] + Scan(s[1..])
  {
  }

  lemma ScanCitation(id: string, after: string)
    requires ValidId(id)
    ensures Scan(Cite(id) + after) == [Citation(id)] + Scan(after)
  {
    IdAtCite(id, after);
    assert (Cite(id) + after)[|id| + 2..] == after;
  }

  /** A match at the front, as a citation and what follows it. */
  lemma MatchAtFront(s: string) returns (id: string, after: string)
    requires IdAt(s) != []
    ensures id == IdAt(s) && ValidId(id) && s == Cite(id) + after && |after| < |s|
  {
    IdAtMeaning(s);
    id := IdAt(s);
    after := s[|id| + 2..];
  }

  /** The scan loses nothing: an answer is its prose with exactly the found citations put back, each of them valid. */
  lemma {:induction false} ScanPartitions(s: string)
    ensures Render(Scan(s)) == s && forall id :: id in Findings(s) ==> ValidId(id)
    decreases |s|
  {
    if s != [] {
      if IdAt(s) == [] {
        ScanText(s);
        ScanPartitions(s[1..]);
        FirstSegment(Text(s[0]), Scan(s[1..]));
      } else {
        var id, after := MatchAtFront(s);
        ScanCitation(id, after);
        ScanPartitions(after);
        FirstSegment(Citation(id), Scan(after));
      }
    }
  }

  lemma FirstSegment(first: Segment, rest: seq<Segment>)
    ensures Render([first] + rest) == (if first.Text? then [first.c] else Cite(first.id)) + Render(rest)
    ensures Found([first] + rest) == (if first.Citation? then [first.id] else []) + Found(rest)
    ensures Prose([first] + rest) == (if first.Text? then [first.c] else []) + Prose(rest)
  {
    assert ([first] + rest)[1..] == rest;
  }

  lemma ValidIdHasNoBracket(id: string)
    requires ValidId(id)
    ensures '[' !in id && ']' !in id
  {
    var n, m :| ValidSplit(id, n, m);
    forall i | 0 <= i < |id| ensures id[i] != '[' && id[i] != ']' {
      if n <= i < n + |MARK| {
        assert id[i] == id[n..n + |MARK|][i - n];
      }
    }
  }

  /** A match in front of a citation ends before it: its inside holds no bracket. */
  lemma MatchEndsBefore(before: string, rest: string)
    requires before != [] && rest != [] && rest[0] == '[' && IdAt(before + rest) != []
    ensures |IdAt(before + rest)| + 2 <= |before|
  {
    var id, after := MatchAtFront(before + rest);
    ValidIdHasNoBracket(id);
    assert (before + rest)[|before|] == '[';
    assert forall i :: 1 <= i < |id| + 2 ==> (Cite(id) + after)[i] != '[';
  }

  lemma LongerKeepsMatch(s: string, more: string)
    requires IdAt(s) != []
    ensures IdAt(s + more) == IdAt(s)
  {
    var id, after := MatchAtFront(s);
    Regroup(Cite(id), after, more);
    IdAtCite(id, after + more);
  }

  lemma ShorterKeepsMatch(before: string, rest: string)
    requires before != [] && rest != [] && rest[0] == '[' && IdAt(before + rest) != []
    ensures IdAt(before) == IdAt(before + rest)
  {
    MatchEndsBefore(before, rest);
    var id := IdAt(before + rest);
    IdAtMeaning(before + rest);
    assert before[..|id| + 2] == (before + rest)[..|id| + 2];
    assert before == Cite(id) + before[|id| + 2..];
    IdAtCite(id, before[|id| + 2..]);
  }

  /** So text in front of a citation matches at its front, or not, as it would alone. */
  lemma FrontIsLocal(before: string, rest: string)
    requires before != [] && rest != [] && rest[0] == '['
    ensures IdAt(before + rest) == IdAt(before)
  {
    if IdAt(before) != [] {
      LongerKeepsMatch(before, rest);
    } else if IdAt(before + rest) != [] {
      ShorterKeepsMatch(before, rest);
    }
  }

  lemma Regroup<T>(a: seq<T>, b: seq<T>, c: seq<T>)
    ensures a + (b + c) == (a + b) + c
  {
  }

  lemma {:induction false} FoundAppend(a: seq<Segment>, b: seq<Segment>)
    ensures Found(a + b) == Found(a) + Found(b)
  {
    if a == [] {
      assert a + b == b;
    } else {
      FoundAppend(a[1..], b);
      assert (a + b)[1..] == a[1..] + b;
      Regroup(if a[0].Citation? then [a[0].id] else [], Found(a[1..]), Found(b));
    }
  }

  lemma {:induction false} ProseAppend(a: seq<Segment>, b: seq<Segment>)
    ensures Prose(a + b) == Prose(a) + Prose(b)
  {
    if a == [] {
      assert a + b == b;
    } else {
      ProseAppend(a[1..], b);
      assert (a + b)[1..] == a[1..] + b;
      Regroup(if a[0].Text? then [a[0].c] else [], Prose(a[1..]), Prose(b));
    }
  }

  lemma {:induction false} ScanSplits(before: string, rest: string)
    requires rest != [] && rest[0] == '['
    ensures Scan(before + rest) == Scan(before) + Scan(rest)
    decreases |before|
  {
    if before == [] {
      assert before + rest == rest;
    } else {
      FrontIsLocal(before, rest);
      if IdAt(before) == [] {
        var tail := before[1..];
        assert (before + rest)[1..] == tail + rest;
        ScanText(before + rest);
        ScanText(before);
        ScanSplits(tail, rest);
        Regroup([Text(before[0])], Scan(tail), Scan(rest));
      } else {
        var id, tail := MatchAtFront(before);
        Regroup(Cite(id), tail, rest);
        ScanCitation(id, tail + rest);
        ScanCitation(id, tail);
        ScanSplits(tail, rest);
        Regroup([Citation(id)], Scan(tail), Scan(rest));
      }
    }
  }

  /** A printed citation is found in any context, and the scanner treats what stands before and after it
      as if each stood alone. */
  lemma CitationIsLocal(before: string, id: string, after: string)
    requires ValidId(id)
    ensures Findings(before + (Cite(id) + after)) == Findings(before) + ([id] + Findings(after))
    ensures Stripped(before + (Cite(id) + after)) == Stripped(before) + Stripped(after)
  {
    var rest := Cite(id) + after;
    ScanSplits(before, rest);
    ScanCitation(id, after);
    FirstSegment(Citation(id), Scan(after));
    FoundAppend(Scan(before), Scan(rest));
    ProseAppend(Scan(before), Scan(rest));
    assert [] + Prose(Scan(after)) == Prose(Scan(after));
  }

  lemma MatchHasBrackets(s: string)
    requires IdAt(s) != []
    ensures '[' in s && ']' in s
  {
    var id, after := MatchAtFront(s);
    assert s[0] == '[' && s[|id| + 1] == ']';
  }

  lemma NoBracketNoMatch(s: string)
    requires '[' !in s || ']' !in s
    ensures IdAt(s) == []
  {
    if IdAt(s) != [] {
      MatchHasBrackets(s);
    }
  }

  lemma {:induction false} NoBracketNoCitation(s: string)
    requires '[' !in s || ']' !in s
    ensures Findings(s) == [] && Stripped(s) == s
  {
    if s != [] {
      NoBracketNoMatch(s);
      ScanText(s);
      NoBracketNoCitation(s[1..]);
      FirstSegment(Text(s[0]), Scan(s[1..]));
    }
  }

  lemma OnlyInner(left: string, inner: string, right: string)
    requires ValidId(inner) && Findings(left) == [] && Findings(right) == []
    ensures Findings(left + (Cite(inner) + right)) == [inner]
    ensures Stripped(left + (Cite(inner) + right)) == Stripped(left) + Stripped(right)
  {
    CitationIsLocal(left, inner, right);
    assert [] + ([inner] + []) == [inner];
  }

  function Nested(a: string, inner: string, b: string): string {
    ("[" + a) + (Cite(inner) + (b + "]"))
  }

  /** Removal is a single pass: taking a citation out of the middle of another id leaves text that itself reads as a
      citation, one the report never lists. */
  lemma RemovalCanLeaveCitation(inner: string, a: string, b: string)
    requires ValidId(inner) && ValidId(a + b)
    ensures Findings(Nested(a, inner, b)) == [inner]
    ensures Stripped(Nested(a, inner, b)) == Cite(a + b) && Findings(Cite(a + b)) == [a + b]
  {
    HalvesHaveNoCitation(a, b);
    OnlyInner("[" + a, inner, b + "]");
    Halves(a, b);
    OnlyCitation(a + b);
  }

  lemma Halves(a: string, b: string)
    ensures ("[" + a) + (b + "]") == Cite(a + b)
  {
  }

  lemma HalvesHaveNoCitation(a: string, b: string)
    requires ValidId(a + b)
    ensures Findings("[" + a) == [] && Stripped("[" + a) == "[" + a
    ensures Findings(b + "]") == [] && Stripped(b + "]") == b + "]"
  {
    ValidIdHasNoBracket(a + b);
    assert ']' !in "[" + a by { assert ']' !in a; }
    assert '[' !in b + "]" by { assert '[' !in b; }
    NoBracketNoCitation("[" + a);
    NoBracketNoCitation(b + "]");
  }

  lemma OnlyCitation(id: string)
    requires ValidId(id)
    ensures Findings(Cite(id)) == [id]
  {
    ScanCitation(id, "");
    assert Cite(id) + "" == Cite(id);
    FirstSegment(Citation(id), []);
  }

  // ---- When removal leaves no citation ----

  /** Between an opening bracket at i and a closing one at j stands at least one found citation, and the text around
      it spells an id. */
  ghost predicate Tears(segments: seq<Segment>, i: nat, j: nat) {
    && i < j < |segments| && segments[i] == Text('[') && segments[j] == Text(']')
    && (exists m :: i < m < j && segments[m].Citation?)
    && ValidId(Prose(segments[i + 1..j]))
  }

  ghost predicate Torn(segments: seq<Segment>) {
    exists i, j :: Tears(segments, i, j)
  }

  /** The segment that puts position k into the prose. */
  lemma {:induction false} SegmentAt(segments: seq<Segment>, k: nat) returns (j: nat)
    requires k < |Prose(segments)|
    ensures j < |segments| && segments[j] == Text(Prose(segments)[k]) && Prose(segments[..j]) == Prose(segments)[..k]
  {
    var first, rest := segments[0], segments[1..];
    assert segments == [first] + rest;
    FirstSegment(first, rest);
    if first.Text? && k == 0 {
      j := 0;
    } else {
      var i := SegmentAt(rest, if first.Text? then k - 1 else k);
      j := i + 1;
      assert segments[..j] == [first] + rest[..i];
      FirstSegment(first, rest[..i]);
    }
  }

  lemma {:induction false} RenderAppend(a: seq<Segment>, b: seq<Segment>)
    ensures Render(a + b) == Render(a) + Render(b)
  {
    if a == [] {
      assert a + b == b;
    } else {
      RenderAppend(a[1..], b);
      assert (a + b)[1..] == a[1..] + b;
      Regroup(if a[0].Text? then [a[0].c] else Cite(a[0].id), Render(a[1..]), Render(b));
    }
  }

  lemma {:induction false} PlainRendersAsProse(segments: seq<Segment>)
    requires forall m :: 0 <= m < |segments| ==> segments[m].Text?
    ensures Render(segments) == Prose(segments)
  {
    if segments != [] {
      PlainRendersAsProse(segments[1..]);
    }
  }

  lemma PlainFrontSpells(segments: seq<Segment>, j: nat) returns (after: string)
    requires j < |segments| && segments[j] == Text(']') && forall m :: 0 <= m < j ==> segments[m].Text?
    ensures Render(segments) == Prose(segments[..j]) + ("]" + after)
  {
    hide Render, Prose;
    var front, back := segments[..j], segments[j + 1..];
    assert segments == front + ([Text(']')] + back);
    PlainRendersAsProse(front);
    RenderAppend(front, [Text(']')] + back);
    FirstSegment(Text(']'), back);
    after := Render(back);
  }

  lemma CiteIs(id: string, after: string)
    ensures "[" + (id + ("]" + after)) == Cite(id) + after
  {
  }

  lemma HeadAndRest(s: string)
    requires s != []
    ensures s == [s[0]] + s[1..]
  {
  }

  /** A bracket the scanner passed over, closed in the prose around an id, has a found citation inside. */
  lemma ClosedBracketHoldsCitation(s: string, id: string, j: nat)
    requires s != [] && s[0] == '[' && IdAt(s) == [] && ValidId(id)
    requires j < |Scan(s[1..])| && Scan(s[1..])[j] == Text(']') && Prose(Scan(s[1..])[..j]) == id
    ensures exists m :: 0 <= m < j && Scan(s[1..])[m].Citation?
  {
    hide Scan, Render, Prose, IdAt, ValidId, Cite;
    var rest := Scan(s[1..]);
    if forall m :: 0 <= m < j ==> rest[m].Text? {
      var after := PlainFrontSpells(rest, j);
      ScanPartitions(s[1..]);
      HeadAndRest(s);
      CiteIs(id, after);
      IdAtCite(id, after);
      NonEmptyId(id);
    }
  }

  lemma NonEmptyId(id: string)
    requires ValidId(id)
    ensures id != []
  {
  }

  lemma TearsLater(first: Segment, rest: seq<Segment>, i: nat, j: nat)
    requires Tears(rest, i, j)
    ensures Tears([first] + rest, i + 1, j + 1)
  {
    var all := [first] + rest;
    assert all[i + 2..j + 1] == rest[i + 1..j];
    var m :| i < m < j && rest[m].Citation?;
    assert all[m + 1].Citation?;
  }

  lemma TornLater(first: Segment, rest: seq<Segment>)
    requires Torn(rest)
    ensures Torn([first] + rest)
  {
    var i, j :| Tears(rest, i, j);
    TearsLater(first, rest, i, j);
  }

  /** A match at the front of a longer text, seen from behind its first character. */
  lemma MatchBehind(c: char, p: string) returns (id: string)
    requires IdAt([c] + p) != []
    ensures c == '[' && ValidId(id) && |id| < |p| && p[..|id|] == id && p[|id|] == ']'
  {
    var after;
    id, after := MatchAtFront([c] + p);
    CiteIs(id, after);
    assert ([c] + p)[1..] == id + ("]" + after);
    assert ([c] + p)[1..] == p && ([c] + p)[0] == c;
  }

  lemma FrontTear(rest: seq<Segment>, j: nat)
    requires j < |rest| && rest[j] == Text(']') && ValidId(Prose(rest[..j]))
    requires exists m :: 0 <= m < j && rest[m].Citation?
    ensures Tears([Text('[')] + rest, 0, j + 1)
  {
    hide ValidId, Prose;
    var all := [Text('[')] + rest;
    assert all[1..j + 1] == rest[..j];
    var m :| 0 <= m < j && rest[m].Citation?;
    assert all[m + 1].Citation?;
  }

  lemma TornAtFront(s: string)
    requires s != [] && IdAt(s) == [] && IdAt([s[0]] + Stripped(s[1..])) != []
    ensures Torn([Text(s[0])] + Scan(s[1..]))
  {
    hide Scan, Prose, IdAt, ValidId, Tears;
    var rest := Scan(s[1..]);
    var id := MatchBehind(s[0], Stripped(s[1..]));
    var j := SegmentAt(rest, |id|);
    ClosedBracketHoldsCitation(s, id, j);
    FrontTear(rest, j);
  }

  lemma TextStep(s: string)
    requires s != [] && IdAt(s) == []
    ensures Scan(s) == [Text(s[0])] + Scan(s[1..]) && Stripped(s) == [s[0]] + Stripped(s[1..])
    ensures Findings(s) == Findings(s[1..])
  {
    ScanText(s);
    FirstSegment(Text(s[0]), Scan(s[1..]));
  }

  lemma CitationStep(s: string) returns (id: string, after: string)
    requires IdAt(s) != []
    ensures Scan(s) == [Citation(id)] + Scan(after) && Stripped(s) == Stripped(after) && |after| < |s|
  {
    id, after := MatchAtFront(s);
    ScanCitation(id, after);
    FirstSegment(Citation(id), Scan(after));
  }

  lemma NothingInEmpty()
    ensures Findings(Stripped("")) == []
  {
  }

  lemma {:induction false} LeftoverIsTorn(s: string)
    requires Findings(Stripped(s)) != []
    ensures Torn(Scan(s))
    decreases |s|
  {
    hide Torn, Scan, Findings, Stripped, IdAt;
    NothingInEmpty();
    if s != [] {
      if IdAt(s) == [] {
        TextStep(s);
        var p := Stripped(s[1..]);
        if IdAt([s[0]] + p) == [] {
          TextStep([s[0]] + p);
          assert ([s[0]] + p)[1..] == p;
          LeftoverIsTorn(s[1..]);
          TornLater(Text(s[0]), Scan(s[1..]));
        } else {
          TornAtFront(s);
        }
      } else {
        var id, after := CitationStep(s);
        LeftoverIsTorn(after);
        TornLater(Citation(id), Scan(after));
      }
    }
  }

  lemma CutInFive(segments: seq<Segment>, i: nat, j: nat)
    requires i < j < |segments|
    ensures segments == segments[..i] + ([segments[i]] + (segments[i + 1..j] + ([segments[j]] + segments[j + 1..])))
  {
  }

  lemma TearLeavesCitation(segments: seq<Segment>, i: nat, j: nat)
    requires Tears(segments, i, j)
    ensures Findings(Prose(segments)) != []
  {
    hide Findings, Prose, ValidId, Cite;
    var before, inner, rest := segments[..i], segments[i + 1..j], segments[j + 1..];
    CutInFive(segments, i, j);
    FirstSegment(Text(']'), rest);
    ProseAppend(inner, [Text(']')] + rest);
    FirstSegment(Text('['), inner + ([Text(']')] + rest));
    ProseAppend(before, [Text('[')] + (inner + ([Text(']')] + rest)));
    CiteIs(Prose(inner), Prose(rest));
    CitationIsLocal(Prose(before), Prose(inner), Prose(rest));
  }

  /** What removal leaves still holds a citation exactly when some found citation was cut out of the middle of an
      opening bracket, the spelling of an id, and a closing bracket. */
  lemma RemovalLeavesCitationExactly(s: string)
    ensures Findings(Stripped(s)) != [] <==> Torn(Scan(s))
  {
    if Findings(Stripped(s)) != [] {
      LeftoverIsTorn(s);
    }
    if Torn(Scan(s)) {
      var i, j :| Tears(Scan(s), i, j);
      TearLeavesCitation(Scan(s), i, j);
    }
  }

  /** The found citation at m stands behind an opening bracket with no other bracket in between. */
  ghost predicate InsideBracket(segments: seq<Segment>, m: nat) {
    && m < |segments| && segments[m].Citation?
    && exists i :: 0 <= i < m && OpenUntil(segments, i, m)
  }

  ghost predicate OpenUntil(segments: seq<Segment>, i: nat, m: nat) {
    && i < m <= |segments| && segments[i] == Text('[')
    && forall k :: i < k < m ==> segments[k] != Text('[') && segments[k] != Text(']')
  }

  lemma {:induction false} TextIsProse(segments: seq<Segment>, k: nat)
    requires k < |segments| && segments[k].Text?
    ensures segments[k].c in Prose(segments)
  {
    if k > 0 {
      TextIsProse(segments[1..], k - 1);
    }
  }

  lemma NoBracketBetween(segments: seq<Segment>, i: nat, j: nat, k: nat)
    requires i < k < j <= |segments| && ValidId(Prose(segments[i + 1..j]))
    ensures segments[k] != Text('[') && segments[k] != Text(']')
  {
    ValidIdHasNoBracket(Prose(segments[i + 1..j]));
    if segments[k].Text? {
      TextIsProse(segments[i + 1..j], k - i - 1);
    }
  }

  lemma TearIsInside(segments: seq<Segment>, i: nat, j: nat)
    requires Tears(segments, i, j)
    ensures exists m :: InsideBracket(segments, m)
  {
    hide ValidId, Prose;
    var m :| i < m < j && segments[m].Citation?;
    forall k | i < k < m ensures segments[k] != Text('[') && segments[k] != Text(']') {
      NoBracketBetween(segments, i, j, k);
    }
    assert OpenUntil(segments, i, m);
    assert InsideBracket(segments, m);
  }

  /** So removal is clean whenever no found citation stands inside an opened bracket. */
  lemma RemovalIsCleanOutsideBrackets(s: string)
    requires forall m :: !InsideBracket(Scan(s), m)
    ensures Findings(Stripped(s)) == []
  {
    hide Tears, InsideBracket, Scan, Findings, Stripped;
    RemovalLeavesCitationExactly(s);
    if Torn(Scan(s)) {
      var i, j :| Tears(Scan(s), i, j);
      TearIsInside(Scan(s), i, j);
    }
  }

  // ---- Chunk ids are citable ----

  /** Every id the chunker gives a policy document is one the scanner recognises. */
  lemma ChunkIdsAreValid(documentId: string, index: nat)
    requires ChunkKeys.IsDocumentId(documentId)
    ensures ValidId(Chunking.ChunkId(documentId, index))
  {
    var id := Chunking.ChunkId(documentId, index);
    DecimalDigits(index);
    var n, digits := |documentId|, Decimal(index);
    assert id == documentId + (MARK + digits);
    forall i | 0 <= i < n ensures IsIdChar(id[i]) {
      assert i < 4 ==> documentId[i] == documentId[..4][i];
    }
    assert id[n..n + |MARK|] == MARK;
    forall i | n + |MARK| <= i < |id| ensures IsDigit(id[i]) {
      assert id[i] == digits[i - n - |MARK|];
    }
    assert ValidSplit(id, n, |digits|);
  }

  // ---- The synthesis prompt ----

  datatype Hit = Hit(chunkId: string, text: string)

  function EvidenceLines(hits: seq<Hit>): seq<string> {
    if hits == [] then [] else [Cite(hits[0].chunkId) + " " + hits[0].text] + EvidenceLines(hits[1..])
  }

  function BuildPrompt(instruction: string, query: string, hits: seq<Hit>): string {
    instruction + "\n\nEvidence:\n" + Join(EvidenceLines(hits), '\n') + "\n\nQuestion: " + query
  }

  lemma {:induction false} EvidenceContext(hits: seq<Hit>, k: nat) returns (before: string, after: string)
    requires k < |hits|
    ensures Join(EvidenceLines(hits), '\n') == before + Cite(hits[k].chunkId) + after
  {
    var rest := Join(EvidenceLines(hits[1..]), '\n');
    JoinedEvidence(hits);
    hide Cite, Join, EvidenceLines;
    var cite, text := Cite(hits[0].chunkId), hits[0].text;
    if k == 0 {
      before, after := "", " " + text + if |hits| == 1 then "" else "\n" + rest;
      Regroup(cite, " ", text);
      Regroup(cite, " " + text, "\n" + rest);
      assert before + cite == cite;
    } else {
      var b, a := EvidenceContext(hits[1..], k - 1);
      var first, inner := cite + " " + text, Cite(hits[k].chunkId);
      before, after := first + ("\n" + b), a;
      Regroup("\n", b + inner, a);
      Regroup("\n", b, inner);
      Regroup(first, "\n" + b, inner);
      Regroup(first, ("\n" + b) + inner, a);
    }
  }

  lemma JoinedEvidence(hits: seq<Hit>)
    requires hits != []
    ensures
      var first := Cite(hits[0].chunkId) + " " + hits[0].text;
      Join(EvidenceLines(hits), '\n') ==
        if |hits| == 1 then first else first + ("\n" + Join(EvidenceLines(hits[1..]), '\n'))
  {
    hide Cite;
    var first := Cite(hits[0].chunkId) + " " + hits[0].text;
    var rest := EvidenceLines(hits[1..]);
    assert EvidenceLines(hits) == [first] + rest && EvidenceLines(hits)[1..] == rest;
    assert |hits| > 1 ==> rest != [];
    Regroup(first, "\n", Join(rest, '\n'));
  }

  /** Every hit's id is found in the prompt, whatever the instruction, the evidence texts and the query contain. */
  lemma PromptCitesEveryHit(instruction: string, query: string, hits: seq<Hit>, k: nat)
    requires k < |hits| && ValidId(hits[k].chunkId)
    ensures hits[k].chunkId in Findings(BuildPrompt(instruction, query, hits))
  {
    var b, a := EvidenceContext(hits, k);
    var head, tail := instruction + "\n\nEvidence:\n", "\n\nQuestion: " + query;
    var id := hits[k].chunkId;
    PromptContext(head, b, Cite(id), a, tail);
    CitationIsLocal(head + b, id, a + tail);
    assert id in [id] + Findings(a + tail);
    Regroup(head, Join(EvidenceLines(hits), '\n'), tail);
    Regroup(head + Join(EvidenceLines(hits), '\n'), "\n\nQuestion: ", query);
  }

  lemma PromptContext(head: string, b: string, cite: string, a: string, tail: string)
    ensures head + (b + cite + a) + tail == (head + b) + (cite + (a + tail))
  {
  }

  // ---- Groundedness ----

  const STOPWORDS: set<string> := {
    "the", "a", "an", "and", "or", "of", "to", "in", "on", "for", "is", "are", "was", "were", "be", "this", "that",
    "it", "as", "by", "with", "at", "from", "not", "does", "do", "did", "if", "so", "must", "may"
  }

  /** `fold` is the case folding. */
  function SignificantTerms(text: string, fold: string -> string): set<string> {
    set t | t in Tokens.Find(fold(text)) && |t| > 2 && t !in STOPWORDS
  }

  function EvidenceTerms(hits: seq<Hit>, fold: string -> string): set<string> {
    if hits == [] then {}
    else EvidenceTerms(hits[..|hits| - 1], fold) + SignificantTerms(hits[|hits| - 1].text, fold)
  }

  function Unknown(cited: seq<string>, hits: seq<Hit>): seq<string> {
    if cited == [] then []
    else (if exists h :: h in hits && h.chunkId == cited[0] then [] else [cited[0]]) + Unknown(cited[1..], hits)
  }

  datatype Report = Report(overlap: real, cited: seq<string>, fabricated: seq<string>, grounded: bool)

  function Overlap(answer: set<string>, evidence: set<string>): real {
    if answer == {} then 0.0 else Round(|answer * evidence| as real / |answer| as real, 10000.0)
  }

  /** The loop over the evidence, and the report. */
  method Evaluate(answer: string, hits: seq<Hit>, fold: string -> string, minimum: real) returns (r: Report)
    ensures r == Reference(answer, hits, fold, minimum)
    ensures Reports(r, answer, hits, fold, minimum)
  {
    hide Reports;
    ReportMeaning(answer, hits, fold, minimum);
    var cited := SortedSet(Findings(answer));
    var fabricated := SortedSet(Unknown(cited, hits));
    var answerTerms := SignificantTerms(Stripped(answer), fold);
    var evidenceTerms: set<string> := {};
    for k := 0 to |hits|
      invariant evidenceTerms == EvidenceTerms(hits[..k], fold)
    {
      assert hits[..k + 1][..k] == hits[..k];
      evidenceTerms := evidenceTerms + SignificantTerms(hits[k].text, fold);
    }
    assert hits[..|hits|] == hits;
    var overlap := Overlap(answerTerms, evidenceTerms);
    r := Report(overlap, cited, fabricated, overlap >= minimum && cited != [] && fabricated == []);
  }

  function Reference(answer: string, hits: seq<Hit>, fold: string -> string, minimum: real): Report {
    var cited := SortedSet(Findings(answer));
    var fabricated := SortedSet(Unknown(cited, hits));
    var overlap := Overlap(SignificantTerms(Stripped(answer), fold), EvidenceTerms(hits, fold));
    Report(overlap, cited, fabricated, overlap >= minimum && cited != [] && fabricated == [])
  }

  /** A maximal run of [a-z0-9] in the folded text, longer than two characters and not a stop word. */
  ghost predicate IsTerm(folded: string, t: string) {
    Tokens.HasRun(folded, t) && |t| > 2 && t !in STOPWORDS
  }

  lemma TermsExactly(text: string, fold: string -> string)
    ensures forall t :: t in SignificantTerms(text, fold) <==> IsTerm(fold(text), t)
  {
    forall t ensures t in SignificantTerms(text, fold) <==> IsTerm(fold(text), t) {
      Tokens.FindMeaning(fold(text), t);
    }
  }

  /** Some hit's text has the term too. */
  ghost predicate Supported(hits: seq<Hit>, fold: string -> string, t: string) {
    exists h :: h in hits && IsTerm(fold(h.text), t)
  }

  /** The score is the fraction of the prose's terms that some hit supports, to the nearest 1/10000, and 0 for none. */
  ghost predicate Scores(score: real, prose: string, hits: seq<Hit>, fold: string -> string,
                         terms: set<string>, supported: set<string>)
  {
    && (forall t :: t in terms <==> IsTerm(fold(prose), t))
    && (forall t :: t in supported <==> t in terms && Supported(hits, fold, t))
    && if terms == {} then score == 0.0 else RoundedTo(score, |supported| as real / |terms| as real, 10000.0)
  }

  /** What a report says, of the ids found in the answer and of the score of the text around them. */
  ghost predicate Reports(r: Report, answer: string, hits: seq<Hit>, fold: string -> string, minimum: real) {
    && (exists terms, supported :: Scores(r.overlap, Stripped(answer), hits, fold, terms, supported))
    && (forall id :: id in r.cited <==> id in Findings(answer))
    && (forall id :: id in r.fabricated <==> id in Findings(answer) && !Known(hits, id))
    && (r.grounded <==>
          r.overlap >= minimum && Findings(answer) != [] && forall id :: id in Findings(answer) ==> Known(hits, id))
  }

  lemma OverlapScores(prose: string, hits: seq<Hit>, fold: string -> string)
    ensures
      var terms, evidence := SignificantTerms(prose, fold), EvidenceTerms(hits, fold);
      Scores(Overlap(terms, evidence), prose, hits, fold, terms, terms * evidence)
  {
    hide SignificantTerms, IsTerm, RoundedTo, EvidenceTerms;
    var terms, evidence := SignificantTerms(prose, fold), EvidenceTerms(hits, fold);
    TermsExactly(prose, fold);
    forall t ensures t in terms * evidence <==> t in terms && Supported(hits, fold, t) {
      EvidenceTermsMeaning(hits, fold, t);
      EvidenceIsSupport(hits, fold, t);
    }
    if terms != {} {
      RoundMeaning(|terms * evidence| as real / |terms| as real, 10000.0);
    }
  }

  lemma EvidenceIsSupport(hits: seq<Hit>, fold: string -> string, t: string)
    ensures (exists h :: h in hits && t in SignificantTerms(h.text, fold)) <==> Supported(hits, fold, t)
  {
    hide SignificantTerms, IsTerm;
    forall h | h in hits ensures t in SignificantTerms(h.text, fold) <==> IsTerm(fold(h.text), t) {
      TermsExactly(h.text, fold);
    }
  }

  ghost predicate Known(hits: seq<Hit>, id: string) {
    exists h :: h in hits && h.chunkId == id
  }

  lemma {:induction false} UnknownMeaning(cited: seq<string>, hits: seq<Hit>)
    ensures forall id :: id in Unknown(cited, hits) <==> id in cited && !Known(hits, id)
  {
    if cited != [] {
      UnknownMeaning(cited[1..], hits);
      assert cited == [cited[0]] + cited[1..];
    }
  }

  lemma EmptyHasNone(s: seq<string>)
    ensures s == [] <==> forall x :: x !in s
  {
    if s != [] {
      assert s[0] in s;
    }
  }

  /** Cited are exactly the ids found, fabricated exactly those no hit carries; the score is the fraction of the prose's
      terms that the evidence has; grounded means enough of it, some citation, and every citation carried by a hit. */
  lemma ReportMeaning(answer: string, hits: seq<Hit>, fold: string -> string, minimum: real)
    ensures Reports(Reference(answer, hits, fold, minimum), answer, hits, fold, minimum)
  {
    hide Scores, Overlap, SignificantTerms, EvidenceTerms;
    OverlapScores(Stripped(answer), hits, fold);
    var found := Findings(answer);
    SortedSetMeaning(found);
    var cited := SortedSet(found);
    UnknownMeaning(cited, hits);
    SortedSetMeaning(Unknown(cited, hits));
    EmptyHasNone(found);
    EmptyHasNone(cited);
    EmptyHasNone(SortedSet(Unknown(cited, hits)));
  }

  /** An answer whose prose shares only stop words and words of at most two letters with the evidence scores nothing. */
  lemma StopWordsScoreNothing(answer: string, hits: seq<Hit>, fold: string -> string, minimum: real)
    requires forall t, h :: h in hits && Tokens.HasRun(fold(Stripped(answer)), t) && Tokens.HasRun(fold(h.text), t) ==>
      |t| <= 2 || t in STOPWORDS
    ensures Reference(answer, hits, fold, minimum).overlap == 0.0
  {
    hide Overlap, SignificantTerms, EvidenceTerms, Stripped;
    var prose := Stripped(answer);
    OverlapScores(prose, hits, fold);
    var terms, evidence := SignificantTerms(prose, fold), EvidenceTerms(hits, fold);
    forall t ensures t !in terms * evidence {
      assert !(IsTerm(fold(prose), t) && Supported(hits, fold, t));
    }
    assert terms * evidence == {};
    if terms != {} {
      ZeroFraction(Overlap(terms, evidence), |terms|);
    }
  }

  /** Such an answer: it shares an article with the evidence, and nothing else. */
  lemma SharedArticleScoresNothing(minimum: real)
    ensures Reference("the loan", [Hit("POL", "the fee")], text => text, minimum).overlap == 0.0
  {
    hide Stripped, Reference, STOPWORDS, Tokens.HasRun;
    var fold: string -> string := text => text;
    var hits := [Hit("POL", "the fee")];
    NoCitation("the loan");
    forall t, h | h in hits && Tokens.HasRun("the loan", t) && Tokens.HasRun(fold(h.text), t)
      ensures |t| <= 2 || t in STOPWORDS
    {
      Article(t);
    }
    StopWordsScoreNothing("the loan", hits, fold, minimum);
  }

  lemma Article(t: string)
    requires Tokens.HasRun("the loan", t) && Tokens.HasRun("the fee", t)
    ensures t in STOPWORDS
  {
    hide Tokens.HasRun;
    TwoTokens("the", "loan", t);
    TwoTokens("the", "fee", t);
    assert "the" + " " + "loan" == "the loan" && "the" + " " + "fee" == "the fee";
    assert "loan" != "fee";
  }

  lemma TwoTokens(a: string, b: string, t: string)
    requires Tokens.IsToken(a) && Tokens.IsToken(b)
    ensures Tokens.HasRun(a + " " + b, t) <==> t == a || t == b
  {
    Tokens.FindMeaning(a + " " + b, t);
    Tokens.FindFirst(a, " " + b);
    assert (" " + b)[1..] == b;
    Tokens.FindFirst(b, "");
    assert b + "" == b && a + (" " + b) == a + " " + b;
  }

  lemma {:induction false} NoCitation(s: string)
    requires '[' !in s
    ensures Stripped(s) == s
  {
    if s != [] {
      NoCitation(s[1..]);
    }
  }

  lemma ZeroFraction(score: real, n: nat)
    requires n > 0 && RoundedTo(score, 0 as real / n as real, 10000.0)
    ensures score == 0.0
  {
    DivideMonotone(0.0, 0.0, n as real);
    RoundExact(0, 0.0, 10000.0);
    RoundedOnce(score, 0.0, 10000.0);
  }

  lemma {:induction false} EvidenceTermsMeaning(hits: seq<Hit>, fold: string -> string, t: string)
    ensures t in EvidenceTerms(hits, fold) <==> exists h :: h in hits && t in SignificantTerms(h.text, fold)
  {
    if hits != [] {
      var rest, last := hits[..|hits| - 1], hits[|hits| - 1];
      assert hits == rest + [last];
      EvidenceTermsMeaning(rest, fold, t);
      if t in EvidenceTerms(rest, fold) {
        var h :| h in rest && t in SignificantTerms(h.text, fold);
        assert h in hits;
      } else if h :| h in hits && t in SignificantTerms(h.text, fold) {
        assert h == last || h in rest;
      }
    }
  }

  lemma SubsetSize(a: set<string>, b: set<string>)
    requires a <= b
    ensures |a| <= |b|
  {
    assert b == a + (b - a);
  }

  lemma OverlapGrows(answer: set<string>, fewer: set<string>, more: set<string>)
    requires fewer <= more
    ensures Overlap(answer, fewer) <= Overlap(answer, more)
  {
    if answer != {} {
      SubsetSize(answer * fewer, answer * more);
      DivideMonotone(|answer * fewer| as real, |answer * more| as real, |answer| as real);
      RoundMonotone(|answer * fewer| as real / |answer| as real, |answer * more| as real / |answer| as real, 10000.0);
    }
  }

  /** The score respects the report model's bounds. */
  lemma OverlapInRange(answer: set<string>, evidence: set<string>)
    ensures 0.0 <= Overlap(answer, evidence) <= 1.0
  {
    if answer != {} {
      SubsetSize(answer * evidence, answer);
      FractionRounds(|answer * evidence|, |answer|);
    }
  }

  lemma SelfQuotient(x: real)
    requires x > 0.0
    ensures x / x == 1.0
  {
  }

  lemma FractionRounds(k: nat, n: nat)
    requires k <= n && n > 0
    ensures 0.0 <= Round(k as real / n as real, 10000.0) <= 1.0
  {
    DivideMonotone(0.0, k as real, n as real);
    DivideMonotone(k as real, n as real, n as real);
    SelfQuotient(n as real);
    RoundMonotone(0.0, k as real / n as real, 10000.0);
    RoundMonotone(k as real / n as real, 1.0, 10000.0);
    RoundExact(0, 0.0, 10000.0);
    RoundExact(10000, 1.0, 10000.0);
  }

  /** More evidence never lowers the score, adds no fabricated citation, and never ungrounds an answer. */
  lemma MoreEvidenceNeverUngrounds(answer: string, fewer: seq<Hit>, more: seq<Hit>,
                                   fold: string -> string, minimum: real)
    requires forall h :: h in fewer ==> h in more
    ensures
      var r, s := Reference(answer, fewer, fold, minimum), Reference(answer, more, fold, minimum);
      && r.overlap <= s.overlap && s.cited == r.cited
      && (forall id :: id in s.fabricated ==> id in r.fabricated)
      && (r.grounded ==> s.grounded)
  {
    ReportMeaning(answer, fewer, fold, minimum);
    ReportMeaning(answer, more, fold, minimum);
    forall t | t in EvidenceTerms(fewer, fold) ensures t in EvidenceTerms(more, fold) {
      EvidenceTermsMeaning(fewer, fold, t);
      EvidenceTermsMeaning(more, fold, t);
    }
    OverlapGrows(SignificantTerms(Stripped(answer), fold), EvidenceTerms(fewer, fold), EvidenceTerms(more, fold));
  }

  /** Citing one more known chunk anywhere the text divides leaves the score to the prose alone. */
  lemma AppendingKnownCitation(answer: string, id: string, hits: seq<Hit>, fold: string -> string, minimum: real)
    requires ValidId(id) && Known(hits, id)
    ensures
      var r, s := Reference(answer, hits, fold, minimum), Reference(answer + Cite(id), hits, fold, minimum);
      && s.overlap == r.overlap
      && (s.grounded <==> r.overlap >= minimum && r.fabricated == [])
  {
    CitationIsLocal(answer, id, "");
    assert Cite(id) + "" == Cite(id);
    assert Stripped("") == "" && Stripped(answer) + "" == Stripped(answer);
    ReportMeaning(answer, hits, fold, minimum);
    ReportMeaning(answer + Cite(id), hits, fold, minimum);
    EmptyHasNone(Reference(answer, hits, fold, minimum).fabricated);
    assert id in Findings(answer) + ([id] + Findings(""));
  }
}
