/** Python's `sorted(set(...))` on strings: code-point order, without repetitions. */
module TextOrder {
  import opened Sorting

  predicate StringLe(a: string, b: string) {
    a == [] || (b != [] && (a[0] < b[0] || (a[0] == b[0] && StringLe(a[1..], b[1..]))))
  }

  lemma {:induction false} StringLeTotal(a: string, b: string)
    ensures StringLe(a, b) || StringLe(b, a)
  {
    if a != [] && b != [] {
      StringLeTotal(a[1..], b[1..]);
    }
  }

  lemma {:induction false} StringLeTransitive(a: string, b: string, c: string)
    requires StringLe(a, b) && StringLe(b, c)
    ensures StringLe(a, c)
  {
    if a != [] && a[0] == b[0] == c[0] {
      StringLeTransitive(a[1..], b[1..], c[1..]);
    }
  }

  lemma {:induction false} StringLeAntisymmetric(a: string, b: string)
    requires StringLe(a, b) && StringLe(b, a)
    ensures a == b
  {
    if a != [] {
      StringLeAntisymmetric(a[1..], b[1..]);
      assert a == [a[0]] + a[1..] && b == [b[0]] + b[1..];
    }
  }

  lemma StringLeIsOrder()
    ensures TotalPreorder(StringLe)
  {
    forall x, y ensures StringLe(x, y) || StringLe(y, x) {
      StringLeTotal(x, y);
    }
    forall x, y, z | StringLe(x, y) && StringLe(y, z) ensures StringLe(x, z) {
      StringLeTransitive(x, y, z);
    }
  }

  lemma StringLeSeparates(s: seq<string>)
    ensures Antisymmetric(StringLe, s)
  {
    forall x, y | StringLe(x, y) && StringLe(y, x) ensures x == y {
      StringLeAntisymmetric(x, y);
    }
  }

  function Distinct(s: seq<string>): seq<string> {
    if s == [] then []
    else if s[0] in s[1..] then Distinct(s[1..])
    else [s[0]] + Distinct(s[1..])
  }

  function SortedSet(s: seq<string>): seq<string> {
    Sort(StringLe, Distinct(s))
  }

  ghost predicate SameElements(s: seq<string>, t: seq<string>) {
    forall x :: x in s <==> x in t
  }

  ghost predicate NoRepeats(s: seq<string>) {
    forall x :: multiset(s)[x] <= 1
  }

  lemma {:induction false} DistinctMeaning(s: seq<string>)
    ensures SameElements(Distinct(s), s) && NoRepeats(Distinct(s))
  {
    if s != [] {
      DistinctMeaning(s[1..]);
      assert s == [s[0]] + s[1..];
      if s[0] !in s[1..] {
        var rest := Distinct(s[1..]);
        assert multiset(Distinct(s)) == multiset{s[0]} + multiset(rest);
        assert s[0] !in rest && multiset(rest)[s[0]] == 0;
      }
    }
  }

  lemma SameMultiset(a: seq<string>, b: seq<string>)
    requires multiset(a) == multiset(b)
    ensures SameElements(a, b) && (NoRepeats(a) <==> NoRepeats(b))
  {
    forall x ensures x in a <==> x in b {
      assert x in a <==> x in multiset(a);
      assert x in b <==> x in multiset(b);
    }
  }

  /** Sorting a set lists exactly its elements, in order, once each. */
  lemma SortedSetMeaning(s: seq<string>)
    ensures SameElements(SortedSet(s), s) && NoRepeats(SortedSet(s)) && Sorted(StringLe, SortedSet(s))
  {
    StringLeIsOrder();
    DistinctMeaning(s);
    SortSorts(StringLe, Distinct(s));
    SameMultiset(SortedSet(s), Distinct(s));
  }

  lemma SameSetSameMultiset(a: seq<string>, b: seq<string>)
    requires SameElements(a, b) && NoRepeats(a) && NoRepeats(b)
    ensures multiset(a) == multiset(b)
  {
    forall x ensures multiset(a)[x] == multiset(b)[x] {
      assert x in a <==> x in multiset(a);
      assert x in b <==> x in multiset(b);
    }
  }

  /** And it is the only such listing, so how the set was enumerated does not matter. */
  lemma SortedSetIsUnique(s: seq<string>, t: seq<string>)
    requires SameElements(s, t) && NoRepeats(t) && Sorted(StringLe, t)
    ensures SortedSet(s) == t
  {
    StringLeSeparates(SortedSet(s));
    SortedSetMeaning(s);
    SameSetSameMultiset(SortedSet(s), t);
    SortedIsUnique(StringLe, SortedSet(s), t);
  }
}
