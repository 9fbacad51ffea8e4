/** The local vector index: authorised ranking, and what it can never depend on. */
module VectorIndex {
  import opened Wrappers
  import opened PyText
  import opened Sorting
  import opened TextOrder

  datatype Chunk = Chunk(id: string, roles: set<string>, embedding: seq<real>, text: string)

  datatype Hit = Hit(score: real, chunk: Chunk)

  datatype Error = Duplicate(id: string) | DimensionMismatch

  function Dot(a: seq<real>, b: seq<real>): real
    requires |a| == |b|
  {
    if a == [] then 0.0 else a[0] * b[0] + Dot(a[1..], b[1..])
  }

  // ---- Adding ----

  predicate HasId(stored: seq<Chunk>, id: string) {
    exists c :: c in stored && c.id == id
  }

  ghost predicate DistinctIds(stored: seq<Chunk>) {
    forall i, j :: 0 <= i < j < |stored| ==> stored[i].id != stored[j].id
  }

  /** How many of the new chunks go in before the first whose id is taken, by the store or by an earlier one. */
  function Accepted(stored: seq<Chunk>, chunks: seq<Chunk>): (k: nat)
    ensures k <= |chunks|
    decreases chunks
  {
    if chunks == [] || HasId(stored, chunks[0].id) then 0
    else 1 + Accepted(stored + [chunks[0]], chunks[1..])
  }

  lemma {:induction false} AcceptedMeaning(stored: seq<Chunk>, chunks: seq<Chunk>)
    requires DistinctIds(stored)
    ensures
      var k := Accepted(stored, chunks);
      && DistinctIds(stored + chunks[..k])
      && (k < |chunks| ==> exists c :: c in stored + chunks[..k] && c.id == chunks[k].id)
    decreases chunks
  {
    var k := Accepted(stored, chunks);
    if k == 0 {
      assert stored + chunks[..0] == stored;
    } else {
      AcceptedMeaning(stored + [chunks[0]], chunks[1..]);
      assert stored + chunks[..k] == (stored + [chunks[0]]) + chunks[1..][..k - 1];
    }
  }

  // ---- Searching ----

  function Authorised(stored: seq<Chunk>, caller: set<string>): seq<Chunk> {
    if stored == [] then []
    else (if stored[0].roles <= caller then [stored[0]] else []) + Authorised(stored[1..], caller)
  }

  predicate SameDimensions(query: seq<real>, chunks: seq<Chunk>) {
    forall c :: c in chunks ==> |c.embedding| == |query|
  }

  function Scored(query: seq<real>, chunks: seq<Chunk>): seq<Hit>
    requires SameDimensions(query, chunks)
  {
    seq(|chunks|, i requires 0 <= i < |chunks| =>
      assert chunks[i] in chunks; Hit(Dot(query, chunks[i].embedding), chunks[i]))
  }

  /** The sort key (-score, chunk_id). */
  predicate Ahead(a: Hit, b: Hit) {
    a.score > b.score || (a.score == b.score && StringLe(a.chunk.id, b.chunk.id))
  }

  function Positive(hits: seq<Hit>): seq<Hit> {
    if hits == [] then [] else (if hits[0].score > 0.0 then [hits[0]] else []) + Positive(hits[1..])
  }

  function Search(stored: seq<Chunk>, query: seq<real>, caller: set<string>, limit: int): Result<seq<Hit>, Error> {
    var candidates := Authorised(stored, caller);
    if !SameDimensions(query, candidates) then Err(DimensionMismatch)
    else
      var ranked := Positive(Sort(Ahead, Scored(query, candidates)));
      Ok(ranked[..Clamp(limit, |ranked|)])
  }

  lemma {:induction false} AuthorisedMeaning(stored: seq<Chunk>, caller: set<string>)
    ensures forall c :: c in Authorised(stored, caller) <==> c in stored && c.roles <= caller
  {
    if stored != [] {
      AuthorisedMeaning(stored[1..], caller);
      assert stored == [stored[0]] + stored[1..];
    }
  }

  lemma {:induction false} AuthorisedDistinct(stored: seq<Chunk>, caller: set<string>)
    requires DistinctIds(stored)
    ensures DistinctIds(Authorised(stored, caller))
  {
    if stored != [] {
      var rest := stored[1..];
      assert stored == [stored[0]] + rest;
      AuthorisedDistinct(rest, caller);
      AuthorisedMeaning(rest, caller);
      var kept := Authorised(rest, caller);
      forall j | 0 <= j < |kept| ensures kept[j].id != stored[0].id {
        assert kept[j] in rest;
        var i :| 0 <= i < |rest| && rest[i] == kept[j];
        assert stored[i + 1] == kept[j];
      }
    }
  }

  lemma AheadIsOrder()
    ensures TotalPreorder(Ahead)
  {
    StringLeIsOrder();
    forall x, y ensures Ahead(x, y) || Ahead(y, x) {
      StringLeTotal(x.chunk.id, y.chunk.id);
    }
    forall x, y, z | Ahead(x, y) && Ahead(y, z) ensures Ahead(x, z) {
      if x.score == z.score {
        StringLeTransitive(x.chunk.id, y.chunk.id, z.chunk.id);
      }
    }
  }

  lemma SameIdSameChunk(chunks: seq<Chunk>, a: Chunk, b: Chunk)
    requires DistinctIds(chunks) && a in chunks && b in chunks && a.id == b.id
    ensures a == b
  {
    var i :| 0 <= i < |chunks| && chunks[i] == a;
    var j :| 0 <= j < |chunks| && chunks[j] == b;
  }

  /** With distinct ids no two candidates tie. */
  lemma AheadSeparates(query: seq<real>, chunks: seq<Chunk>)
    requires SameDimensions(query, chunks) && DistinctIds(chunks)
    ensures Antisymmetric(Ahead, Scored(query, chunks))
  {
    var hits := Scored(query, chunks);
    forall x, y | x in hits && y in hits && Ahead(x, y) && Ahead(y, x) ensures x == y {
      StringLeAntisymmetric(x.chunk.id, y.chunk.id);
      SameIdSameChunk(chunks, x.chunk, y.chunk);
    }
  }

  /** A candidate's hit. */
  ghost predicate IsHit(stored: seq<Chunk>, query: seq<real>, caller: set<string>, h: Hit) {
    && h.chunk in stored && h.chunk.roles <= caller
    && |h.chunk.embedding| == |query| && h.score == Dot(query, h.chunk.embedding) && h.score > 0.0
  }

  lemma {:induction false} PositiveMeaning(hits: seq<Hit>)
    requires Sorted(Ahead, hits)
    ensures forall h :: h in Positive(hits) <==> h in hits && h.score > 0.0
    ensures Sorted(Ahead, Positive(hits))
  {
    if hits != [] {
      var head, rest := hits[0], hits[1..];
      assert hits == [head] + rest;
      assert Sorted(Ahead, rest) by { assert forall i :: 0 <= i < |rest| ==> rest[i] == hits[i + 1]; }
      PositiveMeaning(rest);
      var kept := Positive(rest);
      forall j | 0 <= j < |kept| ensures Ahead(head, kept[j]) {
        assert kept[j] in rest;
        var i :| 0 <= i < |rest| && rest[i] == kept[j];
        assert hits[i + 1] == kept[j];
      }
    }
  }

  lemma ScoredMembers(query: seq<real>, chunks: seq<Chunk>, h: Hit)
    requires SameDimensions(query, chunks)
    ensures h in Scored(query, chunks)
       <==> h.chunk in chunks && h.score == Dot(query, h.chunk.embedding)
  {
    var hits := Scored(query, chunks);
    if h.chunk in chunks && h.score == Dot(query, h.chunk.embedding) {
      var i :| 0 <= i < |chunks| && chunks[i] == h.chunk;
      assert hits[i] == h;
    }
  }

  ghost function Ranked(stored: seq<Chunk>, query: seq<real>, caller: set<string>): seq<Hit>
    requires SameDimensions(query, Authorised(stored, caller))
  {
    Positive(Sort(Ahead, Scored(query, Authorised(stored, caller))))
  }

  lemma RankedMeaning(stored: seq<Chunk>, query: seq<real>, caller: set<string>)
    requires SameDimensions(query, Authorised(stored, caller))
    ensures Sorted(Ahead, Ranked(stored, query, caller))
    ensures forall h :: h in Ranked(stored, query, caller) <==> IsHit(stored, query, caller, h)
  {
    var candidates := Authorised(stored, caller);
    AheadIsOrder();
    SortSorts(Ahead, Scored(query, candidates));
    SortKeepsMembers(Ahead, Scored(query, candidates));
    PositiveMeaning(Sort(Ahead, Scored(query, candidates)));
    AuthorisedMeaning(stored, caller);
    forall h ensures h in Ranked(stored, query, caller) <==> IsHit(stored, query, caller, h) {
      ScoredMembers(query, candidates, h);
    }
  }

  /** Search fails exactly when some authorised chunk has another dimension. Otherwise it returns authorised chunks
      with positive scores, best first with ties by id, each once as the index keeps ids distinct, and omits one only
      when `limit` better ones are returned. */
  lemma SearchIsOptimal(stored: seq<Chunk>, query: seq<real>, caller: set<string>, limit: nat)
    ensures
      var r := Search(stored, query, caller, limit);
      && (r.Err? <==> exists c :: c in stored && c.roles <= caller && |c.embedding| != |query|)
      && (r.Err? ==> r.error == DimensionMismatch)
      && (r.Ok? ==>
            && |r.value| <= limit && Sorted(Ahead, r.value)
            && (DistinctIds(stored) ==> DistinctHits(r.value))
            && (forall h :: h in r.value ==> IsHit(stored, query, caller, h))
            && (forall h :: IsHit(stored, query, caller, h) && h !in r.value ==>
                  |r.value| == limit && forall k :: k in r.value ==> Ahead(k, h)))
  {
    AuthorisedMeaning(stored, caller);
    if DistinctIds(stored) {
      HitsAreDistinct(stored, query, caller, limit);
    }
    if SameDimensions(query, Authorised(stored, caller)) {
      var ranked := Ranked(stored, query, caller);
      RankedMeaning(stored, query, caller);
      var n := Clamp(limit, |ranked|);
      assert forall h :: h in ranked[..n] ==> h in ranked;
      forall h | h in ranked && h !in ranked[..n] ensures n == limit && forall k :: k in ranked[..n] ==> Ahead(k, h) {
        LaterIsBehind(ranked, n, h);
      }
    }
  }

  lemma {:induction false} PositiveKeepsOnce(hits: seq<Hit>, h: Hit)
    ensures multiset(Positive(hits))[h] <= multiset(hits)[h]
  {
    if hits != [] {
      PositiveKeepsOnce(hits[1..], h);
      assert hits == [hits[0]] + hits[1..];
    }
  }

  lemma NoRepeatInPrefix(hits: seq<Hit>, i: nat, j: nat)
    requires i < j < |hits| && multiset(hits)[hits[i]] <= 1
    ensures hits[i] != hits[j]
  {
    var a, b := hits[..j], hits[j..];
    assert hits == a + b && a[i] == hits[i] && b[0] == hits[j];
    assert hits[i] in multiset(a) && hits[j] in multiset(b);
  }

  ghost predicate DistinctHits(hits: seq<Hit>) {
    forall i, j :: 0 <= i < j < |hits| ==> hits[i].chunk.id != hits[j].chunk.id
  }

  /** No chunk is returned twice, so `limit` hits are `limit` different chunks. */
  lemma HitsAreDistinct(stored: seq<Chunk>, query: seq<real>, caller: set<string>, limit: int)
    requires DistinctIds(stored)
    ensures
      var r := Search(stored, query, caller, limit);
      r.Ok? ==> DistinctHits(r.value)
  {
    var candidates := Authorised(stored, caller);
    if SameDimensions(query, candidates) {
      AuthorisedDistinct(stored, caller);
      AheadIsOrder();
      SortSorts(Ahead, Scored(query, candidates));
      RankedMeaning(stored, query, caller);
      var ranked := Ranked(stored, query, caller);
      forall i, j | 0 <= i < j < |ranked| ensures ranked[i].chunk.id != ranked[j].chunk.id {
        RankedOnce(stored, query, caller, ranked[i]);
        NoRepeatInPrefix(ranked, i, j);
        SameChunkSameHit(stored, query, caller, ranked[i], ranked[j]);
      }
    }
  }

  lemma RankedOnce(stored: seq<Chunk>, query: seq<real>, caller: set<string>, h: Hit)
    requires DistinctIds(stored) && SameDimensions(query, Authorised(stored, caller))
    ensures multiset(Ranked(stored, query, caller))[h] <= 1
  {
    var candidates := Authorised(stored, caller);
    AuthorisedDistinct(stored, caller);
    AheadIsOrder();
    SortSorts(Ahead, Scored(query, candidates));
    PositiveKeepsOnce(Sort(Ahead, Scored(query, candidates)), h);
    ScoredPermutes(query, candidates, h);
    OnceEach(candidates, h.chunk);
  }

  lemma SameChunkSameHit(stored: seq<Chunk>, query: seq<real>, caller: set<string>, a: Hit, b: Hit)
    requires DistinctIds(stored) && SameDimensions(query, Authorised(stored, caller))
    requires a in Ranked(stored, query, caller) && b in Ranked(stored, query, caller)
    ensures a.chunk.id == b.chunk.id ==> a == b
  {
    hide Ranked;
    RankedMeaning(stored, query, caller);
    assert IsHit(stored, query, caller, a) && IsHit(stored, query, caller, b);
    if a.chunk.id == b.chunk.id {
      SameIdSameChunk(stored, a.chunk, b.chunk);
    }
  }

  lemma LaterIsBehind(ranked: seq<Hit>, n: nat, h: Hit)
    requires Sorted(Ahead, ranked) && n <= |ranked| && h in ranked && h !in ranked[..n]
    ensures n < |ranked| && forall k :: k in ranked[..n] ==> Ahead(k, h)
  {
    var j :| 0 <= j < |ranked| && ranked[j] == h;
    assert forall i :: 0 <= i < n ==> ranked[..n][i] == ranked[i] && ranked[i] in ranked[..n];
  }

  // ---- What a search cannot depend on ----

  lemma {:induction false} AuthorisedPick(stored: seq<Chunk>, caller: set<string>, c: Chunk)
    ensures multiset(Authorised(stored, caller))[c] == if c.roles <= caller then multiset(stored)[c] else 0
  {
    if stored != [] {
      AuthorisedPick(stored[1..], caller, c);
      assert stored == [stored[0]] + stored[1..];
    }
  }

  lemma {:induction false} ScoredPermutes(query: seq<real>, chunks: seq<Chunk>, h: Hit)
    requires SameDimensions(query, chunks)
    ensures multiset(Scored(query, chunks))[h]
         == if |h.chunk.embedding| == |query| && h.score == Dot(query, h.chunk.embedding)
            then multiset(chunks)[h.chunk] else 0
  {
    if chunks != [] {
      var rest := chunks[1..];
      assert chunks == [chunks[0]] + rest;
      ScoredPermutes(query, rest, h);
      assert Scored(query, chunks) == [Hit(Dot(query, chunks[0].embedding), chunks[0])] + Scored(query, rest);
    }
  }

  lemma SameAuthorisedSameCandidates(query: seq<real>, a: seq<Chunk>, b: seq<Chunk>)
    requires SameDimensions(query, a) && SameDimensions(query, b) && multiset(a) == multiset(b) && DistinctIds(a)
    ensures Sort(Ahead, Scored(query, a)) == Sort(Ahead, Scored(query, b))
  {
    forall h ensures multiset(Scored(query, a))[h] == multiset(Scored(query, b))[h] {
      ScoredPermutes(query, a, h);
      ScoredPermutes(query, b, h);
    }
    AheadIsOrder();
    AheadSeparates(query, a);
    SortSorts(Ahead, Scored(query, a));
    SortSorts(Ahead, Scored(query, b));
    SortKeepsMembers(Ahead, Scored(query, a));
    SortedIsUnique(Ahead, Sort(Ahead, Scored(query, a)), Sort(Ahead, Scored(query, b)));
  }

  /** The result, error included, depends only on which authorised chunks are stored: not on insertion order,
      and not on any chunk the caller may not see. */
  lemma SearchSeesOnlyAuthorised(a: seq<Chunk>, b: seq<Chunk>, query: seq<real>, caller: set<string>, limit: int)
    requires DistinctIds(a) && DistinctIds(b)
    requires forall c: Chunk :: c.roles <= caller ==> (c in a <==> c in b)
    ensures Search(a, query, caller, limit) == Search(b, query, caller, limit)
  {
    var x, y := Authorised(a, caller), Authorised(b, caller);
    AuthorisedMeaning(a, caller);
    AuthorisedMeaning(b, caller);
    AuthorisedDistinct(a, caller);
    AuthorisedDistinct(b, caller);
    SameSetSameChunks(x, y);
    if SameDimensions(query, x) {
      SameAuthorisedSameCandidates(query, x, y);
    }
  }

  lemma {:induction false} OnceEach(chunks: seq<Chunk>, c: Chunk)
    requires DistinctIds(chunks)
    ensures multiset(chunks)[c] == if c in chunks then 1 else 0
  {
    if chunks != [] {
      var rest := chunks[1..];
      assert chunks == [chunks[0]] + rest;
      assert DistinctIds(rest) by { assert forall i :: 0 <= i < |rest| ==> rest[i] == chunks[i + 1]; }
      OnceEach(rest, c);
      assert chunks[0] !in rest;
    }
  }

  lemma SameSetSameChunks(x: seq<Chunk>, y: seq<Chunk>)
    requires DistinctIds(x) && DistinctIds(y) && forall c :: c in x <==> c in y
    ensures multiset(x) == multiset(y)
  {
    forall c ensures multiset(x)[c] == multiset(y)[c] {
      OnceEach(x, c);
      OnceEach(y, c);
    }
  }

  lemma ScoredAppend(query: seq<real>, seen: seq<Chunk>, c: Chunk)
    requires SameDimensions(query, seen) && |c.embedding| == |query|
    ensures SameDimensions(query, seen + [c])
    ensures Scored(query, seen + [c]) == Scored(query, seen) + [Hit(Dot(query, c.embedding), c)]
  {
  }

  // ---- The index ----

  class LocalVectorIndex {
    /** The chunks by id, in insertion order. */
    var stored: seq<Chunk>

    ghost predicate Valid()
      reads this
    {
      DistinctIds(stored)
    }

    constructor ()
      ensures Valid() && stored == []
    {
      stored := [];
    }

    /** Stores chunks up to the first whose id is taken; those before it stay stored when it is refused. */
    method Add(chunks: seq<Chunk>) returns (r: Result<(), Error>)
      requires Valid()
      modifies this
      ensures Valid()
      ensures
        var k := Accepted(old(stored), chunks);
        && stored == old(stored) + chunks[..k]
        && r == if k == |chunks| then Ok(()) else Err(Duplicate(chunks[k].id))
    {
      ghost var k := Accepted(stored, chunks);
      AcceptedMeaning(stored, chunks);
      for i := 0 to |chunks|
        invariant stored == old(stored) + chunks[..i]
        invariant k == i + Accepted(stored, chunks[i..])
      {
        if HasId(stored, chunks[i].id) {
          return Err(Duplicate(chunks[i].id));
        }
        assert chunks[i..][1..] == chunks[i + 1..];
        stored := stored + [chunks[i]];
      }
      assert chunks[..|chunks|] == chunks;
      r := Ok(());
    }

    method Similarity(left: seq<real>, right: seq<real>) returns (r: Result<real, Error>)
      ensures r == if |left| == |right| then Ok(Dot(left, right)) else Err(DimensionMismatch)
    {
      if |left| != |right| {
        return Err(DimensionMismatch);
      }
      r := Ok(Dot(left, right));
    }

    /** Scores the authorised chunks only, and fails at the first of another dimension. */
    method Candidates(query: seq<real>, caller: set<string>) returns (r: Result<seq<Hit>, Error>)
      ensures
        var candidates := Authorised(stored, caller);
        r == if SameDimensions(query, candidates) then Ok(Scored(query, candidates)) else Err(DimensionMismatch)
    {
      var hits := [];
      ghost var seen := [];
      for i := 0 to |stored|
        invariant Authorised(stored, caller) == seen + Authorised(stored[i..], caller)
        invariant SameDimensions(query, seen) && hits == Scored(query, seen)
      {
        var c := stored[i];
        assert stored[i..][0] == c && stored[i..][1..] == stored[i + 1..];
        if c.roles <= caller {
          var score := Similarity(query, c.embedding);
          if score.Err? {
            assert c in Authorised(stored, caller);
            return Err(DimensionMismatch);
          }
          ScoredAppend(query, seen, c);
          hits := hits + [Hit(score.value, c)];
          seen := seen + [c];
        }
      }
      assert seen + Authorised([], caller) == seen;
      r := Ok(hits);
    }

    method SearchIndex(query: seq<real>, caller: set<string>, limit: int) returns (r: Result<seq<Hit>, Error>)
      ensures r == Search(stored, query, caller, limit)
    {
      var candidates := Candidates(query, caller);
      if candidates.Err? {
        return Err(DimensionMismatch);
      }
      var ranked := Positive(Sort(Ahead, candidates.value));
      r := Ok(ranked[..Clamp(limit, |ranked|)]);
    }
  }
}
