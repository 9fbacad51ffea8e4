/** Policy documents: metadata front matter, its printed form, and the checks at ingestion. */
module FrontMatter {
  import opened Wrappers
  import opened PyText

  // ---- Lines ----

  /** The characters `str.splitlines` breaks at. */
  predicate IsBreak(c: char) {
    || '\n' <= c <= '\r' || '\U{1C}' <= c <= '\U{1E}' || c == '\U{85}' || c == '\U{2028}' || c == '\U{2029}'
  }

  predicate SingleLine(s: string) {
    forall c :: c in s ==> !IsBreak(c)
  }

  function LineLength(s: string): (n: nat)
    ensures n <= |s|
  {
    if s == [] || IsBreak(s[0]) then 0 else 1 + LineLength(s[1..])
  }

  /** A carriage return and the line feed behind it are one break. */
  function BreakLength(s: string): nat
    requires s != []
  {
    if |s| >= 2 && s[0] == '\r' && s[1] == '\n' then 2 else 1
  }

  function SplitLines(s: string): seq<string>
    decreases |s|
  {
    if s == [] then []
    else
      var n := LineLength(s);
      if n == |s| then [s] else [s[..n]] + SplitLines(s[n + BreakLength(s[n..])..])
  }

  function JoinLines(lines: seq<string>): string {
    Join(lines, '\n')
  }

  /** Every line break is a line feed. */
  predicate PlainBreaks(s: string) {
    forall c :: c in s && IsBreak(c) ==> c == '\n'
  }

  lemma {:induction false} LineLengthMeaning(s: string)
    ensures SingleLine(s[..LineLength(s)]) && (LineLength(s) < |s| ==> IsBreak(s[LineLength(s)]))
  {
    if s != [] && !IsBreak(s[0]) {
      LineLengthMeaning(s[1..]);
      assert s[..LineLength(s)] == [s[0]] + s[1..][..LineLength(s[1..])];
    }
  }

  lemma {:induction false} LineLengthOf(line: string, rest: string)
    requires SingleLine(line) && (rest == [] || IsBreak(rest[0]))
    ensures LineLength(line + rest) == |line|
  {
    if line == [] {
      assert line + rest == rest;
    } else {
      assert SingleLine(line[1..]);
      assert line[0] in line;
      LineLengthOf(line[1..], rest);
      assert (line + rest)[1..] == line[1..] + rest;
    }
  }

  /** A line printed with a line feed is read back as one line. */
  lemma ReadLine(line: string, rest: string)
    requires SingleLine(line)
    ensures SplitLines(line + "\n" + rest) == [line] + SplitLines(rest)
  {
    var whole := line + "\n" + rest;
    assert whole == line + ("\n" + rest);
    LineLengthOf(line, "\n" + rest);
    assert whole[|line|..] == "\n" + rest;
    assert whole[..|line|] == line && whole[|line| + 1..] == rest;
  }

  /** The characters that end a line, by their codes. */
  ghost predicate EndsLine(c: char) {
    c as int in {10, 11, 12, 13, 28, 29, 30, 133, 8232, 8233}
  }

  /** One such character, or a carriage return and the line feed behind it. */
  ghost predicate LineEnd(end: string) {
    end == "\r\n" || (|end| == 1 && EndsLine(end[0]))
  }

  /** Reading a line stops at its first line end and goes on behind it; text without one is a single line. */
  lemma LineIsRead(line: string, end: string, rest: string)
    requires (forall c :: c in line ==> !EndsLine(c)) && LineEnd(end)
    requires end == "\r" && rest != [] ==> rest[0] != '\n'
    ensures SplitLines(line + end + rest) == [line] + SplitLines(rest)
    ensures line != [] ==> SplitLines(line) == [line]
  {
    BreaksExactly();
    var whole := line + end + rest;
    assert whole == line + (end + rest);
    assert (end + rest)[0] == end[0];
    LineLengthOf(line, end + rest);
    assert whole[|line|..] == end + rest;
    assert whole[..|line|] == line && whole[|line| + |end|..] == rest;
    BreakBehind(end, rest);
    LineLengthOf(line, "");
    assert line + "" == line;
  }

  lemma BreaksExactly()
    ensures forall c :: IsBreak(c) <==> EndsLine(c)
  {
  }

  lemma BreakBehind(end: string, rest: string)
    requires LineEnd(end) && (end == "\r" && rest != [] ==> rest[0] != '\n')
    ensures BreakLength(end + rest) == |end|
  {
    if |end| == 1 && rest != [] {
      assert (end + rest)[1] == rest[0];
    }
  }

  lemma {:induction false} LinesAreSingle(s: string)
    ensures forall line :: line in SplitLines(s) ==> SingleLine(line) && forall c :: c in line ==> c in s
    decreases |s|
  {
    if s != [] {
      LineLengthMeaning(s);
      var n := LineLength(s);
      if n < |s| {
        var rest := s[n + BreakLength(s[n..])..];
        LinesAreSingle(rest);
        assert forall c :: c in rest ==> c in s;
      } else {
        assert s[..n] == s;
      }
    }
  }

  lemma JoinedStep(lines: seq<string>)
    requires |lines| >= 2
    ensures JoinLines(lines) == lines[0] + "\n" + JoinLines(lines[1..])
  {
  }

  lemma {:induction false} JoinedCharacters(lines: seq<string>, c: char)
    requires c in JoinLines(lines)
    ensures c == '\n' || exists line :: line in lines && c in line
  {
    if |lines| >= 2 {
      JoinedStep(lines);
      if c in JoinLines(lines[1..]) {
        JoinedCharacters(lines[1..], c);
        if c != '\n' {
          var line :| line in lines[1..] && c in line;
          assert line in lines;
        }
      } else if c in lines[0] {
        assert lines[0] in lines;
      }
    } else if |lines| == 1 {
      assert lines[0] in lines;
    }
  }

  lemma JoinedHasPlainBreaks(s: string)
    ensures PlainBreaks(JoinLines(SplitLines(s)))
  {
    LinesAreSingle(s);
    forall c | c in JoinLines(SplitLines(s)) && IsBreak(c) ensures c == '\n' {
      JoinedCharacters(SplitLines(s), c);
    }
  }

  /** The first line and the text behind its break. */
  lemma SplitStep(s: string) returns (line: string, rest: string)
    requires LineLength(s) < |s|
    ensures SplitLines(s) == [line] + SplitLines(rest) && |rest| < |s|
    ensures
      var n := LineLength(s);
      line == s[..n] && rest == s[n + BreakLength(s[n..])..] && IsBreak(s[n])
  {
    LineLengthMeaning(s);
    var n := LineLength(s);
    line, rest := s[..n], s[n + BreakLength(s[n..])..];
  }

  lemma JoinStep(line: string, lines: seq<string>)
    requires lines != []
    ensures JoinLines([line] + lines) == line + "\n" + JoinLines(lines)
  {
    assert ([line] + lines)[1..] == lines;
  }

  /** Splitting and joining changes nothing in a text whose only breaks are line feeds, none of them last. */
  lemma {:induction false} JoinInvertsSplit(s: string)
    requires PlainBreaks(s) && (s != [] ==> s[|s| - 1] != '\n')
    ensures JoinLines(SplitLines(s)) == s
    decreases |s|
  {
    if LineLength(s) < |s| {
      var line, rest := SplitStep(s);
      PlainStep(s);
      JoinInvertsSplit(rest);
      SplitNonEmpty(rest);
      JoinStep(line, SplitLines(rest));
    } else if s != [] {
      assert SplitLines(s) == [s];
    }
  }

  /** A plain break is a single line feed, and the text behind it is again plain. */
  lemma PlainStep(s: string)
    requires PlainBreaks(s) && LineLength(s) < |s| && s[|s| - 1] != '\n'
    ensures
      var n := LineLength(s);
      var rest := s[n + BreakLength(s[n..])..];
      && s == s[..n] + "\n" + rest && PlainBreaks(rest) && rest != [] && rest[|rest| - 1] == s[|s| - 1]
  {
    LineLengthMeaning(s);
    hide LineLength, IsBreak;
    var n := LineLength(s);
    assert s[n] in s && s[n] == '\n' && s[n..][0] == '\n';
    var rest := s[n + 1..];
    assert forall c :: c in rest ==> c in s;
  }

  lemma SplitNonEmpty(s: string)
    requires s != []
    ensures SplitLines(s) != []
  {
  }

  // ---- Ends of a joined text ----

  lemma BreaksAreSpace(c: char)
    ensures IsBreak(c) ==> IsSpace(c)
  {
  }

  lemma BreakIsInside(s: string, n: nat)
    requires n < |s| && IsBreak(s[n]) && !IsSpace(s[|s| - 1])
    ensures n + BreakLength(s[n..]) < |s|
  {
    BreaksAreSpace(s[n]);
    hide IsBreak;
    assert IsSpace('\n');
    hide IsSpace;
    if BreakLength(s[n..]) == 2 {
      assert s[n..][1] == s[n + 1];
    }
  }

  lemma RestKeepsEnd(s: string, rest: string)
    requires LineLength(s) < |s| && !IsSpace(s[|s| - 1])
    requires
      var n := LineLength(s);
      IsBreak(s[n]) && rest == s[n + BreakLength(s[n..])..]
    ensures rest != [] && rest[|rest| - 1] == s[|s| - 1] && (!IsSpace(s[0]) ==> LineLength(s) > 0)
  {
    BreaksAreSpace(s[0]);
    hide IsBreak, IsSpace, BreakLength;
    BreakIsInside(s, LineLength(s));
  }

  /** Normalising the breaks of a text that ends in no white space leaves its last character, and likewise its first. */
  lemma {:induction false} JoinKeepsEnds(s: string)
    requires s != [] && !IsSpace(s[|s| - 1])
    ensures
      var joined := JoinLines(SplitLines(s));
      joined != [] && joined[|joined| - 1] == s[|s| - 1] && (!IsSpace(s[0]) ==> joined[0] == s[0])
    decreases |s|
  {
    if LineLength(s) < |s| {
      var line, rest := SplitStep(s);
      RestKeepsEnd(s, rest);
      JoinKeepsEnds(rest);
      SplitNonEmpty(rest);
      JoinStep(line, SplitLines(rest));
      JoinedEnds(line, JoinLines(SplitLines(rest)));
    }
  }

  lemma JoinedEnds(line: string, rest: string)
    requires rest != []
    ensures
      var joined := line + "\n" + rest;
      joined[|joined| - 1] == rest[|rest| - 1] && (line != [] ==> joined[0] == line[0])
  {
  }

  lemma JoinKeepsTrimmed(s: string)
    requires s != [] && Trimmed(s)
    ensures Trimmed(JoinLines(SplitLines(s))) && Strip(JoinLines(SplitLines(s))) == JoinLines(SplitLines(s))
  {
    JoinKeepsEnds(s);
    StripOfTrimmed(JoinLines(SplitLines(s)));
  }

  /** So a trimmed text comes back from splitting and joining unchanged exactly when its only breaks are line feeds. */
  lemma NormalisedExactly(s: string)
    requires s != [] && Trimmed(s)
    ensures JoinLines(SplitLines(s)) == s <==> PlainBreaks(s)
  {
    JoinedHasPlainBreaks(s);
    if PlainBreaks(s) {
      BreaksAreSpace('\n');
      JoinInvertsSplit(s);
    }
  }

  // ---- Headers ----

  datatype Field = Field(key: string, value: string)

  datatype Error =
    | NoFrontMatter | NotTerminated | InvalidField | ContentTooShort
    | ControlCharacter | InvalidSchema | ProhibitedPattern | NoRoles | NotMarkdown

  /** The first colon, or the end. */
  function Colon(line: string): (k: nat)
    ensures k <= |line|
  {
    if line == [] || line[0] == ':' then 0 else 1 + Colon(line[1..])
  }

  function KeyOf(line: string): string {
    Strip(line[..Colon(line)])
  }

  function ValueOf(line: string): string {
    if Colon(line) == |line| then [] else Strip(line[Colon(line) + 1..])
  }

  predicate HasKey(fields: seq<Field>, key: string) {
    exists f :: f in fields && f.key == key
  }

  /** The fields of the header lines, after those already read. */
  function Headers(lines: seq<string>, fields: seq<Field>): Result<seq<Field>, Error>
    decreases lines
  {
    if lines == [] then Ok(fields)
    else
      var key, value := KeyOf(lines[0]), ValueOf(lines[0]);
      if Colon(lines[0]) == |lines[0]| || key == [] || value == [] || HasKey(fields, key) then Err(InvalidField)
      else Headers(lines[1..], fields + [Field(key, value)])
  }

  const FENCE := "---"

  /** The first line `---` among these, or their number. */
  function Fence(lines: seq<string>): (k: nat)
    ensures k <= |lines| && (k < |lines| ==> lines[k] == FENCE)
    ensures forall i :: 0 <= i < k ==> lines[i] != FENCE
  {
    if lines == [] || lines[0] == FENCE then 0 else 1 + Fence(lines[1..])
  }

  datatype Parsed = Parsed(fields: seq<Field>, content: string)

  function SplitDocument(document: string): Result<Parsed, Error> {
    ParseLines(SplitLines(document))
  }

  function ParseLines(lines: seq<string>): Result<Parsed, Error> {
    if |lines| < 8 || lines[0] != FENCE then Err(NoFrontMatter)
    else
      var after := lines[1..];
      var closing := Fence(after);
      if closing == |after| then Err(NotTerminated)
      else
        match Headers(after[..closing], [])
        case Err(e) => Err(e)
        case Ok(fields) =>
          var content := Strip(JoinLines(after[closing + 1..]));
          if |content| < 20 then Err(ContentTooShort) else Ok(Parsed(fields, content))
  }

  /** What is accepted begins with a line of three dashes and has another; the content is what stands behind it. */
  lemma AcceptedIsFenced(document: string) returns (closing: nat)
    requires SplitDocument(document).Ok?
    ensures
      var lines := SplitLines(document);
      && |lines| >= 8 && 0 < closing < |lines| && lines[0] == "---" && lines[closing] == "---"
      && (forall i :: 0 < i < closing ==> lines[i] != "---")
      && SplitDocument(document).value.content == Strip(JoinLines(lines[closing + 1..]))
      && |SplitDocument(document).value.content| >= 20
  {
    hide SplitLines, Strip, JoinLines, Headers;
    var lines := SplitLines(document);
    closing := Fence(lines[1..]) + 1;
    assert forall i :: 0 < i < |lines| ==> lines[1..][i - 1] == lines[i];
    assert lines[1..][closing..] == lines[closing + 1..];
  }

  // ---- Printing ----

  function PrintField(f: Field): string {
    f.key + ": " + f.value
  }

  function PrintFields(fields: seq<Field>): string {
    if fields == [] then [] else PrintField(fields[0]) + "\n" + PrintFields(fields[1..])
  }

  function FieldLines(fields: seq<Field>): seq<string> {
    if fields == [] then [] else [PrintField(fields[0])] + FieldLines(fields[1..])
  }

  function Print(p: Parsed): string {
    FENCE + "\n" + (PrintFields(p.fields) + (FENCE + "\n" + p.content))
  }

  predicate GoodField(f: Field) {
    && f.key != [] && Trimmed(f.key) && SingleLine(f.key) && ':' !in f.key
    && f.value != [] && Trimmed(f.value) && SingleLine(f.value)
  }

  ghost predicate GoodFields(fields: seq<Field>) {
    && (forall f :: f in fields ==> GoodField(f))
    && forall i, j :: 0 <= i < j < |fields| ==> fields[i].key != fields[j].key
  }

  lemma {:induction false} ColonOf(key: string, rest: string)
    requires ':' !in key
    ensures Colon(key + ":" + rest) == |key|
  {
    if key == [] {
      assert key + ":" + rest == ":" + rest;
    } else {
      ColonOf(key[1..], rest);
      assert (key + ":" + rest)[1..] == key[1..] + ":" + rest;
    }
  }

  lemma StripLeadingSpace(s: string)
    requires s != [] && Trimmed(s)
    ensures Strip(" " + s) == s
  {
    assert (" " + s)[1..] == s;
    assert LStrip(s) == s;
    assert LStrip(" " + s) == LStrip(s);
  }

  lemma FieldReadBack(f: Field)
    requires GoodField(f)
    ensures
      var line := PrintField(f);
      && SingleLine(line) && line != FENCE && Colon(line) < |line|
      && KeyOf(line) == f.key && ValueOf(line) == f.value
  {
    var line := PrintField(f);
    assert line == f.key + ":" + (" " + f.value);
    ColonOf(f.key, " " + f.value);
    assert line[..|f.key|] == f.key && line[|f.key| + 1..] == " " + f.value;
    assert line[|f.key|] == ':' && ':' in line && ':' !in FENCE;
    StripOfTrimmed(f.key);
    StripLeadingSpace(f.value);
  }

  lemma {:induction false} PrintedFieldLines(fields: seq<Field>, rest: string)
    requires forall f :: f in fields ==> GoodField(f)
    ensures SplitLines(PrintFields(fields) + rest) == FieldLines(fields) + SplitLines(rest)
  {
    hide PrintField, SplitLines, GoodField;
    if fields == [] {
      assert PrintFields(fields) + rest == rest;
    } else {
      var line, more := PrintField(fields[0]), PrintFields(fields[1..]) + rest;
      assert PrintFields(fields) + rest == line + "\n" + more;
      FieldReadBack(fields[0]);
      ReadLine(line, more);
      PrintedFieldLines(fields[1..], rest);
    }
  }

  lemma {:induction false} FenceAfterFields(fields: seq<Field>, rest: seq<string>)
    requires forall f :: f in fields ==> GoodField(f)
    ensures |FieldLines(fields)| == |fields|
    ensures Fence(FieldLines(fields) + ([FENCE] + rest)) == |fields|
  {
    hide PrintField, GoodField;
    if fields == [] {
      assert FieldLines(fields) + ([FENCE] + rest) == [FENCE] + rest;
    } else {
      FieldReadBack(fields[0]);
      FenceAfterFields(fields[1..], rest);
      assert (FieldLines(fields) + ([FENCE] + rest))[1..] == FieldLines(fields[1..]) + ([FENCE] + rest);
    }
  }

  lemma {:induction false} HeadersReadBack(fields: seq<Field>, before: seq<Field>)
    requires GoodFields(before + fields)
    ensures Headers(FieldLines(fields), before) == Ok(before + fields)
    decreases fields
  {
    if fields == [] {
      assert before + fields == before;
    } else {
      var f, all := fields[0], before + fields;
      assert all[|before|] == f;
      FieldReadBack(f);
      assert !HasKey(before, f.key) by {
        forall g | g in before ensures g.key != f.key {
          var i :| 0 <= i < |before| && before[i] == g;
          assert all[i] == g;
        }
      }
      assert (before + [f]) + fields[1..] == all;
      HeadersReadBack(fields[1..], before + [f]);
      assert FieldLines(fields)[1..] == FieldLines(fields[1..]);
      assert Field(f.key, f.value) == f;
    }
  }

  /** The lines of a printed document. */
  lemma PrintedLines(p: Parsed)
    requires GoodFields(p.fields)
    ensures SplitLines(Print(p)) == [FENCE] + (FieldLines(p.fields) + ([FENCE] + SplitLines(p.content)))
    ensures |FieldLines(p.fields)| == |p.fields|
  {
    var tail := FENCE + "\n" + p.content;
    ReadLine(FENCE, PrintFields(p.fields) + tail);
    PrintedFieldLines(p.fields, tail);
    ReadLine(FENCE, p.content);
    FenceAfterFields(p.fields, []);
  }

  lemma ParsePrintedLines(p: Parsed, lines: seq<string>)
    requires GoodFields(p.fields)
    ensures |FieldLines(p.fields)| == |p.fields|
    ensures
      var content := Strip(JoinLines(lines));
      ParseLines([FENCE] + (FieldLines(p.fields) + ([FENCE] + lines))) ==
        if 2 + |p.fields| + |lines| < 8 then Err(NoFrontMatter)
        else if |content| < 20 then Err(ContentTooShort)
        else Ok(Parsed(p.fields, content))
  {
    hide Fence, Headers, JoinLines, Strip, FieldLines;
    FenceAfterFields(p.fields, lines);
    var after := FieldLines(p.fields) + ([FENCE] + lines);
    assert ([FENCE] + after)[1..] == after;
    assert after[..|p.fields|] == FieldLines(p.fields);
    assert after[|p.fields| + 1..] == lines;
    assert [] + p.fields == p.fields;
    HeadersReadBack(p.fields, []);
  }

  /** Printing well-formed fields over trimmed content and parsing that returns them, with the content's breaks turned
      into line feeds, exactly when there are lines and characters enough. */
  lemma ParseInvertsPrint(p: Parsed)
    requires GoodFields(p.fields) && p.content != [] && Trimmed(p.content)
    ensures
      var lines := SplitLines(p.content);
      SplitDocument(Print(p)) ==
        if 2 + |p.fields| + |lines| < 8 then Err(NoFrontMatter)
        else if |JoinLines(lines)| < 20 then Err(ContentTooShort)
        else Ok(Parsed(p.fields, JoinLines(lines)))
  {
    PrintedLines(p);
    ParsePrintedLines(p, SplitLines(p.content));
    JoinKeepsTrimmed(p.content);
  }

  /** Five fields or more, and at least 20 characters with no break but line feeds: the round trip is exact. */
  lemma RoundTrip(p: Parsed)
    requires GoodFields(p.fields) && |p.fields| >= 5
    requires |p.content| >= 20 && Trimmed(p.content)
    ensures SplitDocument(Print(p)) == Ok(p) <==> PlainBreaks(p.content)
  {
    ParseInvertsPrint(p);
    NormalisedExactly(p.content);
    SplitNonEmpty(p.content);
  }

  function FiveFields(): seq<Field> {
    seq(5, i requires 0 <= i < 5 => Field(seq(i + 1, k => 'k'), "v"))
  }

  /** A carriage return in otherwise printable content: the print is accepted as a different document. */
  lemma CarriageReturnIsLost(p: Parsed)
    requires p == Parsed(FiveFields(), seq(10, i => 'x') + "\r" + seq(10, i => 'x'))
    ensures SplitDocument(Print(p)) == Ok(Parsed(FiveFields(), seq(10, i => 'x') + "\n" + seq(10, i => 'x')))
    ensures SplitDocument(Print(p)) != Ok(p)
  {
    hide GoodFields, FiveFields, SplitDocument, Print, SplitLines, JoinLines;
    var x := seq(10, i => 'x');
    FiveFieldsAreGood();
    OneBreakSplits(x, "\r");
    ParseInvertsPrint(p);
    assert (x + "\r" + x)[10] == '\r' && (x + "\n" + x)[10] == '\n';
  }

  lemma FiveFieldsAreGood()
    ensures GoodFields(FiveFields()) && |FiveFields()| == 5
  {
    var fields := FiveFields();
    forall i | 0 <= i < 5 ensures |fields[i].key| == i + 1 && GoodField(fields[i]) {
      assert forall c :: c in fields[i].key ==> c == 'k';
    }
  }

  lemma OneBreakSplits(x: string, b: string)
    requires SingleLine(x) && x != [] && (b == "\r" || b == "\n")
    ensures SplitLines(x + b + x) == [x, x] && JoinLines([x, x]) == x + "\n" + x
  {
    hide JoinLines;
    var s := x + b + x;
    assert s == x + (b + x);
    LineLengthOf(x, b + x);
    LineLengthOf(x, []);
    assert x + [] == x;
    assert s[..|x|] == x && s[|x|..] == b + x && s[|x| + 1..] == x;
    assert x[0] in x && (b + x)[1] == x[0];
    JoinOne(x);
    JoinStep(x, [x]);
    assert [x] + [x] == [x, x];
  }

  // ---- What parsing accepts ----

  lemma {:induction false} ColonMeaning(line: string)
    ensures ':' !in line[..Colon(line)]
  {
    if line != [] && line[0] != ':' {
      ColonMeaning(line[1..]);
      assert line[..Colon(line)] == [line[0]] + line[1..][..Colon(line[1..])];
    }
  }

  lemma ReadFieldIsGood(line: string)
    requires SingleLine(line) && KeyOf(line) != [] && ValueOf(line) != []
    ensures GoodField(Field(KeyOf(line), ValueOf(line)))
    ensures forall c :: c in KeyOf(line) || c in ValueOf(line) ==> c in line
  {
    var k := Colon(line);
    ColonMeaning(line);
    var lo, hi := StripBounds(line[..k]);
    var from, to := StripBounds(line[k + 1..]);
    assert forall c :: c in KeyOf(line) ==> c in line[..k];
    assert forall c :: c in ValueOf(line) ==> c in line[k + 1..];
  }

  ghost predicate FromLines(fields: seq<Field>, lines: seq<string>) {
    forall f, c :: f in fields && (c in f.key || c in f.value) ==> exists line :: line in lines && c in line
  }

  lemma {:induction false} ReadFieldsAreGood(lines: seq<string>, before: seq<Field>, all: seq<string>)
    requires (forall line :: line in lines ==> SingleLine(line) && line in all)
    requires GoodFields(before) && FromLines(before, all) && Headers(lines, before).Ok?
    ensures GoodFields(Headers(lines, before).value) && FromLines(Headers(lines, before).value, all)
    decreases lines
  {
    if lines != [] {
      var line := lines[0];
      assert line in lines;
      ReadFieldIsGood(line);
      var f := Field(KeyOf(line), ValueOf(line));
      AppendedFieldIsGood(before, f);
      assert FromLines(before + [f], all) by {
        forall g, c | g in before + [f] && (c in g.key || c in g.value)
          ensures exists l :: l in all && c in l
        {
          if g == f { assert line in all && c in line; }
        }
      }
      ReadFieldsAreGood(lines[1..], before + [f], all);
    }
  }

  lemma AppendedFieldIsGood(before: seq<Field>, f: Field)
    requires GoodFields(before) && GoodField(f) && !HasKey(before, f.key)
    ensures GoodFields(before + [f])
  {
    assert forall i :: 0 <= i < |before| ==> before[i] in before;
  }

  /** Whatever is accepted has well-formed fields and trimmed content, and is made of the document's characters. */
  lemma AcceptedIsWellFormed(document: string)
    requires SplitDocument(document).Ok?
    ensures
      var p := SplitDocument(document).value;
      && GoodFields(p.fields) && Trimmed(p.content) && |p.content| >= 20 && PlainBreaks(p.content)
      && FromLines(p.fields, SplitLines(document))
      && forall c :: c in p.content ==> c == '\n' || c in document
  {
    var p := SplitDocument(document).value;
    var lines := SplitLines(document);
    LinesAreSingle(document);
    var after := lines[1..];
    var closing := Fence(after);
    assert forall line :: line in after[..closing] ==> line in lines;
    ReadFieldsAreGood(after[..closing], [], lines);
    var body := after[closing + 1..];
    assert forall line :: line in body ==> line in lines;
    var lo, hi := StripBounds(JoinLines(body));
    forall c | c in p.content ensures (IsBreak(c) ==> c == '\n') && (c == '\n' || c in document) {
      assert c in JoinLines(body);
      JoinedCharacters(body, c);
    }
  }

  /** Printing what an accepted document says and parsing it again gives the same, exactly when the print is not short
      of the eight lines every document must have. */
  lemma ReprintExactly(document: string)
    requires SplitDocument(document).Ok?
    ensures
      var p := SplitDocument(document).value;
      SplitDocument(Print(p)) == Ok(p) <==> 2 + |p.fields| + |SplitLines(p.content)| >= 8
  {
    AcceptedIsWellFormed(document);
    var p := SplitDocument(document).value;
    ParseInvertsPrint(p);
    NormalisedExactly(p.content);
  }

  /** Eight lines, most of them blank: the split accepts them, but not a print of what it returned. */
  lemma ShortReprintFails(document: string)
    requires document == "---\n---\n\n\n\n\n\n" + seq(20, i => 'x')
    ensures SplitDocument(document) == Ok(Parsed([], seq(20, i => 'x')))
    ensures SplitDocument(Print(Parsed([], seq(20, i => 'x')))) == Err(NoFrontMatter)
  {
    hide SplitLines, JoinLines, Strip;
    var x := seq(20, i => 'x');
    BlankLines(x);
    OneLine(x);
    assert document ==
      FENCE + "\n" + (FENCE + "\n" + ("" + "\n" + ("" + "\n" + ("" + "\n" + ("" + "\n" + ("" + "\n" + x))))));
    ReadLine(FENCE, FENCE + "\n" + ("" + "\n" + ("" + "\n" + ("" + "\n" + ("" + "\n" + ("" + "\n" + x))))));
    ReadLine(FENCE, "" + "\n" + ("" + "\n" + ("" + "\n" + ("" + "\n" + ("" + "\n" + x)))));
    var lines := [FENCE] + ([FENCE] + ([""] + ([""] + ([""] + ([""] + ([""] + [x]))))));
    assert SplitLines(document) == lines;
    FiveBlanksStripped(x);
    assert lines[1..][1..] == [""] + ([""] + ([""] + ([""] + ([""] + [x]))));
    assert lines[1..][..0] == [];
    ParseInvertsPrint(Parsed([], x));
  }

  lemma OneLine(x: string)
    requires SingleLine(x) && x != []
    ensures SplitLines(x) == [x]
  {
    LineLengthOf(x, []);
    assert x + [] == x;
  }

  lemma BlankLines(x: string)
    requires SingleLine(x) && x != []
    ensures SplitLines("" + "\n" + ("" + "\n" + ("" + "\n" + ("" + "\n" + ("" + "\n" + x)))))
         == [""] + ([""] + ([""] + ([""] + ([""] + [x]))))
  {
    hide SplitLines;
    OneLine(x);
    ReadLine("", x);
    ReadLine("", "" + "\n" + x);
    ReadLine("", "" + "\n" + ("" + "\n" + x));
    ReadLine("", "" + "\n" + ("" + "\n" + ("" + "\n" + x)));
    ReadLine("", "" + "\n" + ("" + "\n" + ("" + "\n" + ("" + "\n" + x))));
  }

  lemma FiveBlanksStripped(x: string)
    requires x != [] && Trimmed(x)
    ensures Strip(JoinLines([""] + ([""] + ([""] + ([""] + ([""] + [x])))))) == x
  {
    hide JoinLines;
    JoinStep("", [x]);
    JoinStep("", [""] + [x]);
    JoinStep("", [""] + ([""] + [x]));
    JoinStep("", [""] + ([""] + ([""] + [x])));
    JoinStep("", [""] + ([""] + ([""] + ([""] + [x]))));
    JoinOne(x);
    StripsLineFeed(x);
    StripsLineFeed("\n" + x);
    StripsLineFeed("\n" + ("\n" + x));
    StripsLineFeed("\n" + ("\n" + ("\n" + x)));
    StripsLineFeed("\n" + ("\n" + ("\n" + ("\n" + x))));
    StripOfTrimmed(x);
  }

  lemma JoinOne(x: string)
    ensures JoinLines([x]) == x
    ensures forall s: string :: "" + "\n" + s == "\n" + s
  {
  }

  lemma StripsLineFeed(s: string)
    ensures Strip("\n" + s) == Strip(s)
  {
    assert ("\n" + s)[1..] == s;
  }

  // ---- The whole parser ----

  const REQUIRED: set<string> := {"id", "title", "version", "classification", "allowed_roles"}

  datatype Document = Document(id: string, title: string, version: string, classification: string,
                               roles: set<string>, content: string)

  /** Category Cc, except line feed, tab and carriage return. */
  predicate IsControl(c: char) {
    (c < ' ' || '\U{7F}' <= c <= '\U{9F}') && c != '\n' && c != '\t' && c != '\r'
  }

  predicate HasControl(s: string) {
    exists c :: c in s && IsControl(c)
  }

  function Keys(fields: seq<Field>): set<string> {
    set f | f in fields :: f.key
  }

  function Lookup(fields: seq<Field>, key: string): string
    requires HasKey(fields, key)
  {
    if fields[0].key == key then fields[0].value else Lookup(fields[1..], key)
  }

  function Roles(value: string): set<string> {
    set part | part in Split(value, ',') && Strip(part) != [] :: Strip(part)
  }

  predicate IsMarkdown(source: string) {
    |source| >= 3 && source[|source| - 3..] == ".md"
  }

  lemma RequiredKeysPresent(fields: seq<Field>)
    requires Keys(fields) == REQUIRED
    ensures forall key :: key in REQUIRED ==> HasKey(fields, key)
  {
    forall key | key in REQUIRED ensures HasKey(fields, key) {
      assert key in Keys(fields);
    }
  }

  /** The checks on what the split returned; the injection patterns are a parameter. */
  function Admit(p: Parsed, source: string, prohibited: string -> bool): Result<Document, Error> {
    if Keys(p.fields) != REQUIRED then Err(InvalidSchema)
    else if prohibited(p.content) then Err(ProhibitedPattern)
    else
      RequiredKeysPresent(p.fields);
      var roles := Roles(Lookup(p.fields, "allowed_roles"));
      if roles == {} then Err(NoRoles)
      else if !IsMarkdown(source) then Err(NotMarkdown)
      else Ok(Document(Lookup(p.fields, "id"), Lookup(p.fields, "title"), Lookup(p.fields, "version"),
                       Lookup(p.fields, "classification"), roles, p.content))
  }

  /** From text already decoded and normalised. */
  function ParsePolicyDocument(text: string, source: string, prohibited: string -> bool): Result<Document, Error> {
    if HasControl(text) then Err(ControlCharacter)
    else
      match SplitDocument(text)
      case Err(e) => Err(e)
      case Ok(p) => Admit(p, source, prohibited)
  }

  lemma {:induction false} LookupFinds(fields: seq<Field>, key: string)
    requires HasKey(fields, key)
    ensures Field(key, Lookup(fields, key)) in fields
  {
    if fields[0].key != key {
      LookupFinds(fields[1..], key);
    } else {
      assert fields[0] == Field(key, fields[0].value);
    }
  }

  lemma RolesAreTrimmed(value: string)
    ensures forall role :: role in Roles(value) ==> role != [] && Trimmed(role)
  {
    forall role | role in Roles(value) ensures role != [] && Trimmed(role) {
      var part :| part in Split(value, ',') && Strip(part) == role;
      var lo, hi := StripBounds(part);
    }
  }

  /** An accepted document carries each header under its own name and the content as split, has at least one role,
      and no role is blank or padded. */
  lemma AcceptedDocumentMeaning(text: string, source: string, prohibited: string -> bool)
    requires ParsePolicyDocument(text, source, prohibited).Ok?
    ensures
      var d := ParsePolicyDocument(text, source, prohibited).value;
      && SplitDocument(text).Ok?
      && var p := SplitDocument(text).value;
      && Field("id", d.id) in p.fields && Field("title", d.title) in p.fields && Field("version", d.version) in p.fields
      && Field("classification", d.classification) in p.fields
      && (exists value :: Field("allowed_roles", value) in p.fields && d.roles == Roles(value))
      && d.content == p.content && !prohibited(d.content)
      && d.roles != {} && forall role :: role in d.roles ==> role != [] && Trimmed(role)
  {
    hide SplitDocument, Roles, Lookup;
    var p := SplitDocument(text).value;
    RequiredKeysPresent(p.fields);
    forall key | key in REQUIRED ensures Field(key, Lookup(p.fields, key)) in p.fields {
      LookupFinds(p.fields, key);
    }
    RolesAreTrimmed(Lookup(p.fields, "allowed_roles"));
  }

  /** A control character, by its code, other than tab, line feed and carriage return. */
  ghost predicate ControlCode(c: char) {
    (c as int < 32 || 127 <= c as int < 160) && c as int !in {9, 10, 13}
  }

  /** `roles` are the parts of the value between commas, stripped, but for the blank ones. */
  ghost predicate ListsRoles(value: string, roles: set<string>) {
    exists parts ::
      && Join(parts, ',') == value && Free(parts, ',')
      && forall role :: role in roles <==> role != "" && exists part :: part in parts && Strip(part) == role
  }

  lemma RolesAreListed(value: string)
    ensures ListsRoles(value, Roles(value))
  {
    hide Strip;
    PartsRejoin(value, ',');
    var parts := Split(value, ',');
    forall role ensures role in Roles(value) <==> role != "" && exists part :: part in parts && Strip(part) == role {
    }
  }

  /** What becomes of a document, check by check: the first that fails is reported, and a document that passes them all
      carries the headers' values, the listed roles and the content. */
  lemma OutcomeExactly(text: string, source: string, prohibited: string -> bool)
    ensures
      var r := ParsePolicyDocument(text, source, prohibited);
      if exists c :: c in text && ControlCode(c) then r == Err(ControlCharacter)
      else
        match SplitDocument(text)
        case Err(e) => r == Err(e)
        case Ok(p) => Admits(p, source, prohibited, r)
  {
    hide SplitDocument, Admit, Admits;
    ControlsExactly(text);
    if SplitDocument(text).Ok? {
      AdmitsExactly(SplitDocument(text).value, source, prohibited);
    }
  }

  ghost predicate Admits(p: Parsed, source: string, prohibited: string -> bool, r: Result<Document, Error>) {
    if !(forall key :: HasKey(p.fields, key) <==> key in ["id", "title", "version", "classification", "allowed_roles"])
      then r == Err(InvalidSchema)
    else if prohibited(p.content) then r == Err(ProhibitedPattern)
    else
      exists value, roles ::
        && Field("allowed_roles", value) in p.fields && ListsRoles(value, roles)
        && if roles == {} then r == Err(NoRoles)
           else if |source| < 3 || source[|source| - 3..] != ".md" then r == Err(NotMarkdown)
           else
             && r.Ok? && r.value.roles == roles && r.value.content == p.content
             && Field("id", r.value.id) in p.fields && Field("title", r.value.title) in p.fields
             && Field("version", r.value.version) in p.fields
             && Field("classification", r.value.classification) in p.fields
  }

  lemma ControlsExactly(text: string)
    ensures HasControl(text) <==> exists c :: c in text && ControlCode(c)
  {
    assert forall c :: IsControl(c) <==> ControlCode(c);
  }

  lemma KeysExactly(fields: seq<Field>)
    ensures Keys(fields) == REQUIRED <==>
      forall key :: HasKey(fields, key) <==> key in ["id", "title", "version", "classification", "allowed_roles"]
  {
    var names := ["id", "title", "version", "classification", "allowed_roles"];
    assert forall key :: key in Keys(fields) <==> HasKey(fields, key);
    forall key ensures key in REQUIRED <==> key in names {
      assert names[0] == "id" && names[1] == "title" && names[2] == "version" && names[3] == "classification"
          && names[4] == "allowed_roles";
    }
    if forall key :: HasKey(fields, key) <==> key in names {
      assert Keys(fields) == REQUIRED;
    }
  }

  lemma AdmitsExactly(p: Parsed, source: string, prohibited: string -> bool)
    ensures Admits(p, source, prohibited, Admit(p, source, prohibited))
  {
    hide Roles, Lookup, ListsRoles;
    KeysExactly(p.fields);
    if Keys(p.fields) == REQUIRED && !prohibited(p.content) {
      RequiredKeysPresent(p.fields);
      forall key | key in REQUIRED ensures Field(key, Lookup(p.fields, key)) in p.fields {
        LookupFinds(p.fields, key);
      }
      var value := Lookup(p.fields, "allowed_roles");
      RolesAreListed(value);
      assert Field("allowed_roles", value) in p.fields && ListsRoles(value, Roles(value));
    }
  }

  lemma {:induction false} PrintedFieldsCharacters(fields: seq<Field>, c: char)
    requires c in PrintFields(fields)
    ensures c in ": \n" || exists f :: f in fields && (c in f.key || c in f.value)
  {
    var first, rest := PrintField(fields[0]), PrintFields(fields[1..]);
    assert PrintFields(fields) == first + "\n" + rest;
    if c in rest {
      PrintedFieldsCharacters(fields[1..], c);
      if f :| f in fields[1..] && (c in f.key || c in f.value) {
        assert f in fields;
      }
    } else if c in first {
      assert fields[0] in fields;
    }
  }

  /** A reprint contains no control character the document did not. */
  lemma ReprintHasNoControl(document: string)
    requires SplitDocument(document).Ok? && !HasControl(document)
    ensures !HasControl(Print(SplitDocument(document).value))
  {
    var p := SplitDocument(document).value;
    AcceptedIsWellFormed(document);
    LinesAreSingle(document);
    forall c | c in Print(p) ensures !IsControl(c) {
      if c in PrintFields(p.fields) {
        PrintedFieldsCharacters(p.fields, c);
        if f :| f in p.fields && (c in f.key || c in f.value) {
          var line :| line in SplitLines(document) && c in line;
          assert c in document;
        }
      } else if c in p.content {
        assert c == '\n' || c in document;
      } else {
        assert c in FENCE || c == '\n';
      }
    }
  }

  lemma {:induction false} KeyCount(fields: seq<Field>)
    requires GoodFields(fields)
    ensures |Keys(fields)| == |fields|
  {
    if fields != [] {
      var rest := fields[1..];
      assert GoodFields(rest) by { assert forall i :: 0 <= i < |rest| ==> rest[i] == fields[i + 1]; }
      KeyCount(rest);
      assert fields[0].key !in Keys(rest);
      assert Keys(fields) == {fields[0].key} + Keys(rest);
    }
  }

  lemma FiveRequired()
    ensures |REQUIRED| == 5
  {
    assert |"id"| < |"title"| < |"version"| < |"allowed_roles"| < |"classification"|;
  }

  lemma AdmittedHasFiveFields(p: Parsed, source: string, prohibited: string -> bool)
    requires GoodFields(p.fields) && Admit(p, source, prohibited).Ok?
    ensures |p.fields| == 5
  {
    KeyCount(p.fields);
    FiveRequired();
  }

  /** Admission requires five headers, so the print has its eight lines. */
  lemma AdmittedReprints(text: string, p: Parsed, source: string, prohibited: string -> bool)
    requires SplitDocument(text) == Ok(p) && Admit(p, source, prohibited).Ok?
    ensures SplitDocument(Print(p)) == Ok(p)
  {
    AcceptedIsWellFormed(text);
    AdmittedHasFiveFields(p, source, prohibited);
    ReprintExactly(text);
    SplitNonEmpty(p.content);
  }

  /** An accepted document, printed from its fields and content, is accepted again as the same document. */
  lemma ReprintedDocumentIsSame(text: string, source: string, prohibited: string -> bool)
    requires ParsePolicyDocument(text, source, prohibited).Ok?
    ensures SplitDocument(text).Ok?
    ensures ParsePolicyDocument(Print(SplitDocument(text).value), source, prohibited)
         == ParsePolicyDocument(text, source, prohibited)
  {
    AdmittedReprints(text, SplitDocument(text).value, source, prohibited);
    ReprintHasNoControl(text);
  }

  // ---- The loop ----

  /** Reads the header lines one by one. */
  method ReadHeaders(lines: seq<string>) returns (r: Result<seq<Field>, Error>)
    ensures r == Headers(lines, [])
  {
    var fields: seq<Field> := [];
    for i := 0 to |lines|
      invariant Headers(lines[i..], fields) == Headers(lines, [])
    {
      assert lines[i..][0] == lines[i] && lines[i..][1..] == lines[i + 1..];
      var line := lines[i];
      if Colon(line) == |line| || KeyOf(line) == [] || ValueOf(line) == [] || HasKey(fields, KeyOf(line)) {
        return Err(InvalidField);
      }
      fields := fields + [Field(KeyOf(line), ValueOf(line))];
    }
    r := Ok(fields);
  }

  /** The split itself: fence, header lines, content. */
  method SplitFrontMatter(document: string) returns (r: Result<Parsed, Error>)
    ensures r == SplitDocument(document)
  {
    hide Headers, SplitLines, JoinLines, Strip;
    var lines := SplitLines(document);
    if |lines| < 8 || lines[0] != FENCE {
      return Err(NoFrontMatter);
    }
    var after := lines[1..];
    var closing := Fence(after);
    if closing == |after| {
      return Err(NotTerminated);
    }
    var headers := ReadHeaders(after[..closing]);
    if headers.Err? {
      return Err(headers.error);
    }
    var content := Strip(JoinLines(after[closing + 1..]));
    if |content| < 20 {
      return Err(ContentTooShort);
    }
    r := Ok(Parsed(headers.value, content));
  }
}
