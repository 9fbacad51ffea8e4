/** The Python string operations the retrieval code relies on. */
module PyText {

  /** `str.isspace` of one character. */
  predicate IsSpace(c: char) {
    || '\t' <= c <= '\r' || '\U{1C}' <= c <= ' ' || c == '\U{85}' || c == '\U{A0}' || c == '\U{1680}'
    || '\U{2000}' <= c <= '\U{200A}' || c == '\U{2028}' || c == '\U{2029}' || c == '\U{202F}'
    || c == '\U{205F}' || c == '\U{3000}'
  }

  function LStrip(s: string): string {
    if s != [] && IsSpace(s[0]) then LStrip(s[1..]) else s
  }

  function RStrip(s: string): string {
    if s != [] && IsSpace(s[|s| - 1]) then RStrip(s[..|s| - 1]) else s
  }

  function Strip(s: string): string {
    RStrip(LStrip(s))
  }

  predicate Trimmed(s: string) {
    s == [] || (!IsSpace(s[0]) && !IsSpace(s[|s| - 1]))
  }

  lemma {:induction false} LStripBounds(s: string)
    ensures |LStrip(s)| <= |s| && LStrip(s) == s[|s| - |LStrip(s)|..]
    ensures forall i :: 0 <= i < |s| - |LStrip(s)| ==> IsSpace(s[i])
    ensures LStrip(s) != [] ==> !IsSpace(LStrip(s)[0])
  {
    if s != [] && IsSpace(s[0]) {
      var t, n := s[1..], |LStrip(s[1..])|;
      LStripBounds(t);
      assert t[|t| - n..] == s[|s| - n..];
      forall i | 0 <= i < |s| - n ensures IsSpace(s[i]) {
        assert i > 0 ==> s[i] == t[i - 1];
      }
    }
  }

  lemma {:induction false} RStripBounds(s: string)
    ensures |RStrip(s)| <= |s| && RStrip(s) == s[..|RStrip(s)|]
    ensures forall i :: |RStrip(s)| <= i < |s| ==> IsSpace(s[i])
    ensures RStrip(s) != [] ==> !IsSpace(RStrip(s)[|RStrip(s)| - 1])
  {
    if s != [] && IsSpace(s[|s| - 1]) {
      RStripBounds(s[..|s| - 1]);
    }
  }

  /** Stripping cuts a front and a back made of white space only, and leaves none at either end. */
  lemma StripBounds(s: string) returns (lo: nat, hi: nat)
    ensures lo <= hi <= |s| && Strip(s) == s[lo..hi] && Trimmed(Strip(s))
    ensures forall i :: 0 <= i < lo || hi <= i < |s| ==> IsSpace(s[i])
  {
    LStripBounds(s);
    RStripBounds(LStrip(s));
    lo := |s| - |LStrip(s)|;
    hi := lo + |Strip(s)|;
    assert LStrip(s) == s[lo..];
    forall i | hi <= i < |s| ensures IsSpace(s[i]) {
      assert LStrip(s)[i - lo] == s[i];
    }
  }

  /** White space, by its codes. */
  ghost predicate SpaceCode(c: char) {
    var n := c as int;
    9 <= n <= 13 || 28 <= n <= 32 || 8192 <= n <= 8202 || n in {133, 160, 5760, 8232, 8233, 8239, 8287, 12288}
  }

  lemma SpacesExactly(c: char)
    ensures IsSpace(c) <==> SpaceCode(c)
  {
  }

  /** Stripping keeps what lies between the first and the last character that is not white space. */
  lemma StripMeaning(s: string) returns (lo: nat, hi: nat)
    ensures lo <= hi <= |s| && Strip(s) == s[lo..hi]
    ensures forall i :: 0 <= i < lo || hi <= i < |s| ==> SpaceCode(s[i])
    ensures lo < hi ==> !SpaceCode(s[lo]) && !SpaceCode(s[hi - 1])
  {
    lo, hi := StripBounds(s);
    hide IsSpace, SpaceCode, Strip;
    forall i | 0 <= i < |s| ensures IsSpace(s[i]) <==> SpaceCode(s[i]) {
      SpacesExactly(s[i]);
    }
    assert lo < hi ==> s[lo..hi][0] == s[lo] && s[lo..hi][hi - lo - 1] == s[hi - 1];
  }

  lemma StripOfTrimmed(s: string)
    requires Trimmed(s)
    ensures Strip(s) == s
  {
  }

  /** Python's clamping of a slice bound. */
  function Clamp(i: int, n: nat): nat {
    if i < 0 then (if n + i < 0 then 0 else n + i) else if i > n then n else i
  }

  function Slice(s: string, from: int, to: int): string {
    var lo, hi := Clamp(from, |s|), Clamp(to, |s|);
    if lo < hi then s[lo..hi] else []
  }

  /** The last space in s[lo..hi], or -1. */
  function LastSpace(s: string, lo: nat, hi: nat): int
    requires hi <= |s|
  {
    if hi <= lo then -1 else if s[hi - 1] == ' ' then hi - 1 else LastSpace(s, lo, hi - 1)
  }

  /** `s.rfind(" ", from, to)`. */
  function RFindSpace(s: string, from: int, to: int): int {
    LastSpace(s, Clamp(from, |s|), Clamp(to, |s|))
  }

  lemma {:induction false} LastSpaceMeaning(s: string, lo: nat, hi: nat)
    requires hi <= |s|
    ensures
      var b := LastSpace(s, lo, hi);
      if b == -1 then forall k :: lo <= k < hi ==> s[k] != ' '
      else lo <= b < hi && s[b] == ' ' && forall k :: b < k < hi ==> s[k] != ' '
  {
    if lo < hi && s[hi - 1] != ' ' {
      LastSpaceMeaning(s, lo, hi - 1);
    }
  }

  // ---- Decimal numerals ----

  function Digit(d: nat): char
    requires d < 10
  {
    "0123456789"[d]
  }

  function Decimal(n: nat): string {
    if n < 10 then [Digit(n)] else Decimal(n / 10) + [Digit(n % 10)]
  }

  predicate IsDigit(c: char) {
    '0' <= c <= '9'
  }

  lemma {:induction false} DecimalDigits(n: nat)
    ensures Decimal(n) != [] && forall i :: 0 <= i < |Decimal(n)| ==> IsDigit(Decimal(n)[i])
  {
    if n >= 10 {
      DecimalDigits(n / 10);
    }
  }

  lemma {:induction false} DecimalInjective(m: nat, n: nat)
    requires Decimal(m) == Decimal(n)
    ensures m == n
  {
    DecimalDigits(m / 10);
    DecimalDigits(n / 10);
    if m >= 10 && n >= 10 {
      assert Decimal(m)[..|Decimal(m)| - 1] == Decimal(m / 10);
      assert Decimal(n)[..|Decimal(n)| - 1] == Decimal(n / 10);
      DecimalInjective(m / 10, n / 10);
    }
    var a, b := Decimal(m)[|Decimal(m)| - 1], Decimal(n)[|Decimal(n)| - 1];
    assert a == Digit(m % 10) && b == Digit(n % 10);
  }

  /** The number a numeral stands for, from the codes of its digits. */
  function NumberOf(s: string): int {
    if s == [] then 0 else 10 * NumberOf(s[..|s| - 1]) + (s[|s| - 1] as int - 48)
  }

  /** A numeral stands for its number, and has no leading zero. */
  lemma {:induction false} DecimalMeaning(n: nat)
    ensures NumberOf(Decimal(n)) == n
    ensures Decimal(n) != [] && (n > 0 ==> Decimal(n)[0] != '0')
  {
    DigitMeaning(n % 10);
    if n < 10 {
      assert Decimal(n)[..0] == [];
      DigitMeaning(n);
    } else {
      DecimalMeaning(n / 10);
      assert Decimal(n)[..|Decimal(n)| - 1] == Decimal(n / 10);
    }
  }

  lemma DigitMeaning(d: nat)
    requires d < 10
    ensures Digit(d) as int == 48 + d
  {
  }

  // ---- Splitting and joining ----

  /** `s.split(d)` */
  function Split(s: string, d: char): seq<string>
    ensures |Split(s, d)| > 0
  {
    if s == [] then [[]]
    else
      var rest := Split(s[1..], d);
      if s[0] == d then [[]] + rest else [[s[0]] + rest[0]] + rest[1..]
  }

  /** `d.join(parts)` */
  function Join(parts: seq<string>, d: char): string {
    if parts == [] then []
    else if |parts| == 1 then parts[0]
    else parts[0] + [d] + Join(parts[1..], d)
  }
  lemma {:induction false} SplitPlain(part: string, d: char)
    requires d !in part
    ensures Split(part, d) == [part]
  {
    if part != [] {
      SplitPlain(part[1..], d);
      assert [part[0]] + part[1..] == part;
    }
  }

  lemma {:induction false} SplitFirst(part: string, rest: string, d: char)
    requires d !in part
    ensures Split(part + [d] + rest, d) == [part] + Split(rest, d)
  {
    if part == [] {
      assert part + [d] + rest == [d] + rest;
    } else {
      SplitFirst(part[1..], rest, d);
      assert (part + [d] + rest)[1..] == part[1..] + [d] + rest;
      assert [part[0]] + part[1..] == part;
    }
  }

  ghost predicate Free(parts: seq<string>, d: char) {
    forall p :: p in parts ==> d !in p
  }

  lemma {:induction false} SplitInvertsJoin(parts: seq<string>, d: char)
    requires parts != [] && Free(parts, d)
    ensures Split(Join(parts, d), d) == parts
  {
    if |parts| == 1 {
      SplitPlain(parts[0], d);
    } else {
      SplitInvertsJoin(parts[1..], d);
      SplitFirst(parts[0], Join(parts[1..], d), d);
    }
  }

  /** Splitting gives the one list of delimiter-free parts that joins to the text. */
  lemma {:induction false} PartsRejoin(s: string, d: char)
    ensures Join(Split(s, d), d) == s && Free(Split(s, d), d)
  {
    if s != [] {
      PartsRejoin(s[1..], d);
      var rest := Split(s[1..], d);
      assert s == [s[0]] + s[1..];
      if s[0] == d {
        JoinHead([], rest, d);
      } else {
        JoinLonger(s[0], rest, d);
        forall p | p in Split(s, d) ensures d !in p {
          assert p == [s[0]] + rest[0] || p in rest;
        }
      }
    }
  }

  lemma JoinHead(head: string, parts: seq<string>, d: char)
    requires parts != []
    ensures Join([head] + parts, d) == head + [d] + Join(parts, d)
  {
    assert ([head] + parts)[1..] == parts;
  }

  lemma JoinLonger(c: char, parts: seq<string>, d: char)
    requires parts != []
    ensures Join([[c] + parts[0]] + parts[1..], d) == [c] + Join(parts, d)
  {
    if |parts| > 1 {
      assert ([[c] + parts[0]] + parts[1..])[1..] == parts[1..];
      assert [c] + parts[0] + [d] + Join(parts[1..], d) == [c] + (parts[0] + [d] + Join(parts[1..], d));
    }
  }
}
