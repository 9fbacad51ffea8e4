/** The tokens of a folded text: `re.findall(r"[a-z0-9]+", text)`. */
module Tokens {

  predicate IsTokenChar(c: char) {
    'a' <= c <= 'z' || '0' <= c <= '9'
  }

  /** Length of the run of token characters at the front. */
  function Run(s: string): (n: nat)
    ensures n <= |s|
  {
    if s != [] && IsTokenChar(s[0]) then 1 + Run(s[1..]) else 0
  }

  function Find(s: string): seq<string>
    decreases |s|
  {
    if s == [] then []
    else if Run(s) == 0 then Find(s[1..])
    else [s[..Run(s)]] + Find(s[Run(s)..])
  }

  predicate IsToken(t: string) {
    t != [] && forall i :: 0 <= i < |t| ==> IsTokenChar(t[i])
  }

  lemma {:induction false} RunMeaning(s: string)
    ensures forall i :: 0 <= i < Run(s) ==> IsTokenChar(s[i])
    ensures Run(s) < |s| ==> !IsTokenChar(s[Run(s)])
  {
    if s != [] && IsTokenChar(s[0]) {
      RunMeaning(s[1..]);
    }
  }

  /** The characters of the class [a-z0-9], by their codes. */
  ghost predicate InClass(c: char) {
    97 <= c as int <= 122 || 48 <= c as int <= 57
  }

  /** s[i..j] is t, all of it in the class, and nothing extends it. */
  ghost predicate IsRun(s: string, i: int, j: int, t: string) {
    && 0 <= i < j <= |s| && s[i..j] == t
    && (forall k :: i <= k < j ==> InClass(s[k]))
    && (i > 0 ==> !InClass(s[i - 1]))
    && (j < |s| ==> !InClass(s[j]))
  }

  ghost predicate HasRun(s: string, t: string) {
    exists i, j :: IsRun(s, i, j, t)
  }

  /** s divides after n characters into a run and the rest, or into a character outside every run and the rest. */
  ghost predicate Divides(s: string, n: nat) {
    && 0 < n <= |s|
    && ((n == 1 && !InClass(s[0]))
        || ((forall k :: 0 <= k < n ==> InClass(s[k])) && (n < |s| ==> !InClass(s[n]))))
  }

  lemma FrontDivides(s: string, t: string)
    requires s != []
    ensures Divides(s, if Run(s) == 0 then 1 else Run(s))
    ensures (exists j :: IsRun(s, 0, j, t)) <==> Run(s) > 0 && t == s[..Run(s)]
  {
    RunMeaning(s);
    if j :| IsRun(s, 0, j, t) {
      assert j == Run(s);
    }
    if Run(s) > 0 && t == s[..Run(s)] {
      assert IsRun(s, 0, Run(s), t);
    }
  }

  lemma RunBehind(s: string, n: nat, i: int, j: int, t: string)
    requires Divides(s, n)
    ensures i > 0 && IsRun(s, i, j, t) <==> i >= n && IsRun(s[n..], i - n, j - n, t)
  {
    hide InClass;
    assert forall k :: n <= k < |s| ==> s[k] == s[n..][k - n];
    if n <= i < j <= |s| {
      assert s[n..][i - n..j - n] == s[i..j];
    }
  }

  lemma HasRunInFrontOrBehind(s: string, n: nat, t: string)
    requires Divides(s, n)
    ensures HasRun(s, t) <==> (exists j :: IsRun(s, 0, j, t)) || HasRun(s[n..], t)
  {
    if i, j :| IsRun(s, i, j, t) {
      RunBehind(s, n, i, j, t);
    }
    if i, j :| IsRun(s[n..], i, j, t) {
      RunBehind(s, n, n + i, n + j, t);
    }
  }

  /** The tokens found are exactly the maximal runs of lower-case letters and digits. */
  lemma {:induction false} FindMeaning(s: string, t: string)
    ensures t in Find(s) <==> HasRun(s, t)
    decreases |s|
  {
    hide IsRun, Divides;
    if s == [] {
      NoRun(t);
    } else {
      var n := if Run(s) == 0 then 1 else Run(s);
      FrontDivides(s, t);
      HasRunInFrontOrBehind(s, n, t);
      FindMeaning(s[n..], t);
    }
  }

  lemma NoRun(t: string)
    ensures !HasRun([], t)
  {
  }

  lemma {:induction false} RunOf(t: string, rest: string)
    requires (forall i :: 0 <= i < |t| ==> IsTokenChar(t[i])) && (rest == [] || !IsTokenChar(rest[0]))
    ensures Run(t + rest) == |t|
  {
    if t == [] {
      assert t + rest == rest;
    } else {
      assert (t + rest)[1..] == t[1..] + rest;
      RunOf(t[1..], rest);
    }
  }

  /** A token in front of a character of another class is found first. */
  lemma FindFirst(t: string, rest: string)
    requires IsToken(t) && (rest == [] || !IsTokenChar(rest[0]))
    ensures Find(t + rest) == [t] + Find(rest)
  {
    RunOf(t, rest);
    assert (t + rest)[..|t|] == t && (t + rest)[|t|..] == rest;
  }
}
