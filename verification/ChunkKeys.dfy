/** Chunk ids and their sanitised search keys stay distinct across a corpus. */
module ChunkKeys {
  import opened PyText
  import opened Chunking

  /** `chunk_id.replace("#", "--")` */
  function Sanitize(s: string): string {
    if s == [] then [] else (if s[0] == '#' then "--" else [s[0]]) + Sanitize(s[1..])
  }

  predicate IsUpper(c: char) {
    'A' <= c <= 'Z'
  }

  /** ^POL-[A-Z]+-\d{3}$ */
  predicate IsDocumentId(s: string) {
    && |s| >= 9 && s[..4] == "POL-" && s[|s| - 4] == '-'
    && (forall i :: 4 <= i < |s| - 4 ==> IsUpper(s[i]))
    && forall i :: |s| - 3 <= i < |s| ==> IsDigit(s[i])
  }

  /** No '#', no doubled dash, no dash at the end. */
  ghost predicate Plain(s: string) {
    && s != [] && s[|s| - 1] != '-' && '#' !in s
    && forall i :: 0 <= i < |s| - 1 ==> !(s[i] == '-' && s[i + 1] == '-')
  }

  /** POL, letters A to Z, and three digits, joined with dashes, the classes by their codes. */
  ghost predicate Named(s: string, letters: string, digits: string) {
    && s == "POL-" + letters + "-" + digits && letters != [] && |digits| == 3
    && (forall c :: c in letters ==> 65 <= c as int <= 90)
    && forall c :: c in digits ==> 48 <= c as int <= 57
  }

  lemma DocumentIdsExactly(s: string)
    ensures IsDocumentId(s) <==> exists letters, digits :: Named(s, letters, digits)
  {
    if IsDocumentId(s) {
      var letters, digits := s[4..|s| - 4], s[|s| - 3..];
      assert s == "POL-" + letters + "-" + digits;
      assert Named(s, letters, digits);
    }
    if letters, digits :| Named(s, letters, digits) {
      var n := |letters|;
      assert s[..4] == "POL-" && s[|s| - 4] == '-';
      forall i | 4 <= i < |s| - 4 ensures IsUpper(s[i]) {
        assert s[i] == letters[i - 4] && letters[i - 4] in letters;
      }
      forall i | |s| - 3 <= i < |s| ensures IsDigit(s[i]) {
        assert s[i] == digits[i - (n + 5)] && digits[i - (n + 5)] in digits;
      }
    }
  }

  lemma DocumentIdsArePlain(s: string)
    requires IsDocumentId(s)
    ensures Plain(s)
  {
    assert forall i :: 0 <= i < 4 ==> s[i] == s[..4][i];
  }

  lemma Regroup(a: string, b: string, c: string)
    ensures a + (b + c) == (a + b) + c
  {
  }

  lemma {:induction false} SanitizeAppend(a: string, b: string)
    ensures Sanitize(a + b) == Sanitize(a) + Sanitize(b)
  {
    if a == [] {
      assert a + b == b;
    } else {
      var head := if a[0] == '#' then "--" else [a[0]];
      SanitizeAppend(a[1..], b);
      assert (a + b)[1..] == a[1..] + b;
      Regroup(head, Sanitize(a[1..]), Sanitize(b));
    }
  }

  lemma {:induction false} SanitizePlain(s: string)
    requires '#' !in s
    ensures Sanitize(s) == s
  {
    if s != [] {
      SanitizePlain(s[1..]);
      assert [s[0]] + s[1..] == s;
    }
  }

  lemma KeyShape(doc: string, n: nat)
    requires '#' !in doc
    ensures Sanitize(ChunkId(doc, n)) == doc + "--chunk-" + Decimal(n)
  {
    var tail := "chunk-" + Decimal(n);
    IdTail(doc, n);
    SanitizeHash(tail);
    hide Sanitize, Decimal;
    SanitizeAppend(doc, "#" + tail);
    SanitizePlain(doc);
  }

  lemma IdTail(doc: string, n: nat)
    ensures
      var tail := "chunk-" + Decimal(n);
      && '#' !in tail && ChunkId(doc, n) == doc + ("#" + tail)
      && doc + ("--" + tail) == doc + "--chunk-" + Decimal(n)
  {
    DecimalDigits(n);
    hide Decimal;
    var digits := Decimal(n);
    assert '#' !in digits;
    assert doc + "#chunk-" + digits == doc + ("#" + ("chunk-" + digits));
  }

  lemma SanitizeHash(tail: string)
    requires '#' !in tail
    ensures Sanitize("#" + tail) == "--" + tail
  {
    assert ("#" + tail)[1..] == tail;
    SanitizePlain(tail);
  }

  /** A text that starts with a plain id and a double dash determines the id. */
  lemma PlainPrefixNoLonger(a: string, b: string, s: string)
    requires Plain(a) && a <= s && b + "--" <= s
    ensures |a| <= |b|
  {
    var i := |b|;
    assert (b + "--")[i] == '-' && (b + "--")[i + 1] == '-';
    assert s[i] == '-' && s[i + 1] == '-';
  }

  /** Distinct documents never share a search key, nor do two chunks of one document. */
  lemma SearchKeysAreDistinct(a: string, m: nat, b: string, n: nat)
    requires Plain(a) && Plain(b) && Sanitize(ChunkId(a, m)) == Sanitize(ChunkId(b, n))
    ensures a == b && m == n
  {
    KeyShape(a, m);
    KeyShape(b, n);
    var s := Sanitize(ChunkId(a, m));
    assert s == a + "--" + ("chunk-" + Decimal(m)) && s == b + "--" + ("chunk-" + Decimal(n));
    PlainPrefixNoLonger(a, b, s);
    PlainPrefixNoLonger(b, a, s);
    assert a == s[..|a|] && b == s[..|b|];
    var head := a + "--chunk-";
    assert s[|head|..] == Decimal(m) && s[|head|..] == Decimal(n);
    DecimalInjective(m, n);
  }

  lemma HashFound(a: string, b: string, s: string)
    requires '#' !in a && a <= s && b + "#" <= s
    ensures |a| <= |b|
  {
    assert (b + "#")[|b|] == '#';
    assert s[|b|] == '#';
  }

  lemma CorpusIdsAreDistinct(a: string, m: nat, b: string, n: nat)
    requires '#' !in a && '#' !in b && ChunkId(a, m) == ChunkId(b, n)
    ensures a == b && m == n
  {
    var s := ChunkId(a, m);
    assert s == a + "#" + ("chunk-" + Decimal(m)) && s == b + "#" + ("chunk-" + Decimal(n));
    HashFound(a, b, s);
    HashFound(b, a, s);
    assert a == s[..|a|] && b == s[..|b|];
    ChunkIdsAreDistinct(a, m, n);
  }
}
