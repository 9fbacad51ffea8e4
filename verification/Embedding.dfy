/** The local hash embedding: unit length, blind to token order, and similarities between -1 and 1. */
module Embedding {
  import opened Rounding
  import opened Sorting
  import Tokens
  import opened VectorIndex

  // ---- Counting hashed tokens ----

  /** Where a token lands and with which sign, from the first five bytes of its digest. */
  datatype Slot = Slot(index: nat, sign: real)

  /** The 32 bytes of a SHA-256 digest. */
  type Digest = d: seq<nat> | |d| == 32 && forall i :: 0 <= i < 32 ==> d[i] < 256 witness seq(32, i => 0)

  function SlotOf(d: Digest, dimensions: nat): Slot
    requires dimensions > 0
  {
    var number := ((d[0] * 256 + d[1]) * 256 + d[2]) * 256 + d[3];
    Slot(number % dimensions, if d[4] % 2 == 0 then 1.0 else -1.0)
  }

  function Slots(tokens: seq<string>, digest: string -> Digest, dimensions: nat): seq<Slot>
    requires dimensions > 0
  {
    seq(|tokens|, i requires 0 <= i < |tokens| => SlotOf(digest(tokens[i]), dimensions))
  }

  /** The signed count of tokens that land at position i. */
  function CountAt(slots: seq<Slot>, i: nat): real {
    if slots == [] then 0.0
    else (if slots[0].index == i then slots[0].sign else 0.0) + CountAt(slots[1..], i)
  }

  function Counts(slots: seq<Slot>, dimensions: nat): seq<real> {
    seq(dimensions, i requires 0 <= i < dimensions => CountAt(slots, i))
  }

  lemma {:induction false} CountAppend(a: seq<Slot>, s: Slot, i: nat)
    ensures CountAt(a + [s], i) == CountAt(a, i) + (if s.index == i then s.sign else 0.0)
  {
    if a == [] {
      assert a + [s] == [s];
    } else {
      assert (a + [s])[1..] == a[1..] + [s];
      CountAppend(a[1..], s, i);
    }
  }

  /** The tokens, by position, whose digest's first four bytes, read as one big-endian number, leave i as the remainder,
      and whose fifth byte is even (parity 0) or odd (parity 1). */
  ghost function Landing(tokens: seq<string>, digest: string -> Digest, dimensions: nat, i: nat, parity: nat): set<nat>
    requires dimensions > 0
  {
    set k | 0 <= k < |tokens| && Lands(digest(tokens[k]), dimensions, i, parity)
  }

  ghost predicate Lands(d: Digest, dimensions: nat, i: nat, parity: nat)
    requires dimensions > 0
  {
    (16777216 * d[0] + 65536 * d[1] + 256 * d[2] + d[3]) % dimensions == i && d[4] % 2 == parity
  }

  lemma SlotMeaning(d: Digest, dimensions: nat, i: nat)
    requires dimensions > 0
    ensures
      var slot := SlotOf(d, dimensions);
      && (slot.index == i && slot.sign == 1.0 <==> Lands(d, dimensions, i, 0))
      && (slot.index == i && slot.sign == -1.0 <==> Lands(d, dimensions, i, 1))
      && (slot.sign == 1.0 || slot.sign == -1.0)
  {
    assert 16777216 * d[0] + 65536 * d[1] + 256 * d[2] + d[3]
        == ((d[0] * 256 + d[1]) * 256 + d[2]) * 256 + d[3];
  }

  lemma LandingStep(tokens: seq<string>, digest: string -> Digest, dimensions: nat, i: nat, parity: nat)
    requires tokens != [] && dimensions > 0
    ensures
      var n := |tokens| - 1;
      |Landing(tokens, digest, dimensions, i, parity)|
        == |Landing(tokens[..n], digest, dimensions, i, parity)|
           + if Lands(digest(tokens[n]), dimensions, i, parity) then 1 else 0
  {
    hide Lands;
    var n := |tokens| - 1;
    var before := Landing(tokens[..n], digest, dimensions, i, parity);
    assert Landing(tokens, digest, dimensions, i, parity)
        == before + if Lands(digest(tokens[n]), dimensions, i, parity) then {n} else {};
  }

  /** A position's signed count: the tokens landing there with an even fifth byte, less those with an odd one. */
  lemma {:induction false} CountMeaning(tokens: seq<string>, digest: string -> Digest, dimensions: nat, i: nat)
    requires dimensions > 0
    ensures CountAt(Slots(tokens, digest, dimensions), i)
         == (|Landing(tokens, digest, dimensions, i, 0)| - |Landing(tokens, digest, dimensions, i, 1)|) as real
  {
    hide SlotOf, Lands, Landing;
    if tokens == [] {
      NothingLands(digest, dimensions, i);
    } else {
      var n := |tokens| - 1;
      CountMeaning(tokens[..n], digest, dimensions, i);
      LandingStep(tokens, digest, dimensions, i, 0);
      LandingStep(tokens, digest, dimensions, i, 1);
      SlotMeaning(digest(tokens[n]), dimensions, i);
      var last := SlotOf(digest(tokens[n]), dimensions);
      assert Slots(tokens, digest, dimensions) == Slots(tokens[..n], digest, dimensions) + [last];
      CountAppend(Slots(tokens[..n], digest, dimensions), last, i);
    }
  }

  lemma NothingLands(digest: string -> Digest, dimensions: nat, i: nat)
    requires dimensions > 0
    ensures Landing([], digest, dimensions, i, 0) == {} && Landing([], digest, dimensions, i, 1) == {}
    ensures CountAt(Slots([], digest, dimensions), i) == 0.0
  {
  }

  lemma {:induction false} CountRemove(a: seq<Slot>, k: nat, i: nat)
    requires k < |a|
    ensures CountAt(a, i) == CountAt(a[..k] + a[k + 1..], i) + (if a[k].index == i then a[k].sign else 0.0)
  {
    var fewer := a[..k] + a[k + 1..];
    if k == 0 {
      assert fewer == a[1..];
    } else {
      CountRemove(a[1..], k - 1, i);
      assert fewer[1..] == a[1..][..k - 1] + a[1..][k..];
    }
  }

  lemma {:induction false} CountIgnoresOrder(a: seq<Slot>, b: seq<Slot>, i: nat)
    requires multiset(a) == multiset(b)
    ensures CountAt(a, i) == CountAt(b, i)
  {
    if a == [] {
      assert |multiset(b)| == 0;
    } else {
      var k := TakeOut(a, b);
      CountIgnoresOrder(a[1..], b[..k] + b[k + 1..], i);
      CountRemove(b, k, i);
    }
  }

  // ---- Norms ----

  function SumOfSquares(v: seq<real>): real {
    Dot(v, v)
  }

  function Scale(v: seq<real>, divisor: real): seq<real>
    requires divisor != 0.0
  {
    seq(|v|, i requires 0 <= i < |v| => v[i] / divisor)
  }

  function Square(x: real): real {
    x * x
  }

  lemma PositiveProduct(x: real, y: real, product: real)
    requires x > 0.0 && y > 0.0 && product == x * y
    ensures product > 0.0
  {
  }

  lemma SquareOfPositive(x: real)
    requires x > 0.0
    ensures Square(x) > 0.0
  {
    PositiveProduct(x, x, Square(x));
  }

  lemma SquareSign(x: real)
    ensures if x == 0.0 then Square(x) == 0.0 else Square(x) > 0.0
  {
    if x > 0.0 {
      SquareOfPositive(x);
    } else if x < 0.0 {
      SquareOfPositive(-x);
      assert Square(x) == Square(-x);
    }
  }

  predicate IsZero(v: seq<real>) {
    forall i :: 0 <= i < |v| ==> v[i] == 0.0
  }

  lemma {:induction false} SquaresArePositive(v: seq<real>)
    ensures if IsZero(v) then SumOfSquares(v) == 0.0 else SumOfSquares(v) > 0.0
  {
    if v != [] {
      SquaresArePositive(v[1..]);
      SquareSign(v[0]);
      assert SumOfSquares(v) == Square(v[0]) + SumOfSquares(v[1..]);
      assert IsZero(v) <==> v[0] == 0.0 && IsZero(v[1..]) by {
        assert forall i :: 1 <= i < |v| ==> v[i] == v[1..][i - 1];
      }
    }
  }

  lemma QuotientSquare(x: real, m: real)
    requires m != 0.0
    ensures ((x / m) * (x / m)) * (m * m) == x * x
  {
    var q := x / m;
    assert (q * q) * (m * m) == (q * m) * (q * m);
  }

  lemma {:induction false} ScaledSquares(v: seq<real>, m: real)
    requires m != 0.0
    ensures SumOfSquares(Scale(v, m)) * Square(m) == SumOfSquares(v)
  {
    if v != [] {
      ScaledSquares(v[1..], m);
      assert Scale(v, m)[1..] == Scale(v[1..], m);
      var q := v[0] / m;
      QuotientSquare(v[0], m);
      Distribute(m * m, q * q, SumOfSquares(Scale(v[1..], m)));
    }
  }

  lemma Distribute(k: real, x: real, y: real)
    ensures k * x + k * y == k * (x + y)
  {
  }

  // ---- Cauchy-Schwarz ----

  /** s*a - t*b, component by component. */
  function Mix(a: seq<real>, b: seq<real>, s: real, t: real): seq<real>
    requires |a| == |b|
  {
    if a == [] then [] else [s * a[0] - t * b[0]] + Mix(a[1..], b[1..], s, t)
  }

  /** The expansion of a sum of (s*x - t*y)^2. */
  function Quadratic(s: real, t: real, xx: real, xy: real, yy: real): real {
    (s * s) * xx - 2.0 * (s * t) * xy + (t * t) * yy
  }

  lemma MixTerm(x: real, y: real, s: real, t: real)
    ensures (s * x - t * y) * (s * x - t * y) == Quadratic(s, t, x * x, x * y, y * y)
  {
    assert (s * x) * (s * x) == (s * s) * (x * x);
    assert (s * x) * (t * y) == (s * t) * (x * y);
    assert (t * y) * (t * y) == (t * t) * (y * y);
  }

  lemma {:induction false} MixSquares(a: seq<real>, b: seq<real>, s: real, t: real)
    requires |a| == |b|
    ensures SumOfSquares(Mix(a, b, s, t)) == Quadratic(s, t, SumOfSquares(a), Dot(a, b), SumOfSquares(b))
  {
    if a != [] {
      MixSquares(a[1..], b[1..], s, t);
      MixTerm(a[0], b[0], s, t);
      Distribute(s * s, a[0] * a[0], SumOfSquares(a[1..]));
      Distribute(2.0 * (s * t), a[0] * b[0], Dot(a[1..], b[1..]));
      Distribute(t * t, b[0] * b[0], SumOfSquares(b[1..]));
    }
  }

  lemma {:induction false} DotWithZero(a: seq<real>, b: seq<real>)
    requires |a| == |b| && IsZero(b)
    ensures Dot(a, b) == 0.0
  {
    if a != [] {
      assert IsZero(b[1..]) by { assert forall i :: 1 <= i < |b| ==> b[i] == b[1..][i - 1]; }
      DotWithZero(a[1..], b[1..]);
    }
  }

  lemma FactorOut(bb: real, aa: real, d: real)
    ensures Quadratic(bb, d, aa, d, bb) == bb * (aa * bb - d * d)
  {
    assert (bb * bb) * aa == bb * (aa * bb);
    assert (bb * d) * d == bb * (d * d);
  }

  lemma PositiveFactor(k: real, x: real)
    requires k > 0.0 && k * x >= 0.0
    ensures x >= 0.0
  {
  }

  lemma Discriminant(aa: real, bb: real, d: real)
    requires bb > 0.0 && Quadratic(bb, d, aa, d, bb) >= 0.0
    ensures d * d <= aa * bb
  {
    FactorOut(bb, aa, d);
    PositiveFactor(bb, aa * bb - d * d);
  }

  lemma CauchySchwarz(a: seq<real>, b: seq<real>)
    requires |a| == |b|
    ensures Dot(a, b) * Dot(a, b) <= SumOfSquares(a) * SumOfSquares(b)
  {
    var aa, bb, d := SumOfSquares(a), SumOfSquares(b), Dot(a, b);
    SquaresArePositive(b);
    if IsZero(b) {
      DotWithZero(a, b);
    } else {
      MixSquares(a, b, bb, d);
      SquaresArePositive(Mix(a, b, bb, d));
      Discriminant(aa, bb, d);
    }
  }

  /** What `embed` returns: unit length, or nothing at all. */
  predicate Normalised(v: seq<real>) {
    SumOfSquares(v) == 1.0 || SumOfSquares(v) == 0.0
  }

  lemma SquareOutsideUnit(d: real)
    requires d > 1.0 || d < -1.0
    ensures d * d > 1.0
  {
    if d > 1.0 {
      assert (d - 1.0) * (d + 1.0) > 0.0;
    } else {
      assert (-d - 1.0) * (-d + 1.0) > 0.0;
    }
  }

  lemma SquareAtMostOne(d: real)
    ensures d * d <= 1.0 ==> -1.0 <= d <= 1.0
  {
    if d > 1.0 || d < -1.0 {
      SquareOutsideUnit(d);
    }
  }

  /** Similarities of embeddings lie in [-1, 1], as does the score rounded to six digits that retrieval reports. */
  lemma SimilarityInRange(a: seq<real>, b: seq<real>)
    requires |a| == |b| && Normalised(a) && Normalised(b)
    ensures -1.0 <= Dot(a, b) <= 1.0
    ensures -1.0 <= Round(Dot(a, b), 1000000.0) <= 1.0
  {
    CauchySchwarz(a, b);
    SquareAtMostOne(Dot(a, b));
    RoundStaysBetween(-1, Dot(a, b), 1);
  }

  lemma RoundStaysBetween(lo: int, x: real, hi: int)
    requires lo as real <= x <= hi as real
    ensures lo as real <= Round(x, 1000000.0) <= hi as real
  {
    RoundMonotone(lo as real, x, 1000000.0);
    RoundMonotone(x, hi as real, 1000000.0);
    RoundExact(lo * 1000000, lo as real, 1000000.0);
    RoundExact(hi * 1000000, hi as real, 1000000.0);
  }

  /** So every hit of an index filled with embeddings, asked with an embedding, meets the hit model's bound. */
  lemma HitsMeetScoreBound(stored: seq<Chunk>, query: seq<real>, caller: set<string>, limit: nat)
    requires Normalised(query) && forall c :: c in stored ==> Normalised(c.embedding)
    ensures
      var r := Search(stored, query, caller, limit);
      r.Ok? ==> forall h :: h in r.value ==> 0.0 <= Round(h.score, 1000000.0) <= 1.0
  {
    SearchIsOptimal(stored, query, caller, limit);
    var r := Search(stored, query, caller, limit);
    if r.Ok? {
      forall h | h in r.value ensures 0.0 <= Round(h.score, 1000000.0) <= 1.0 {
        assert IsHit(stored, query, caller, h);
        SimilarityInRange(query, h.chunk.embedding);
        RoundStaysBetween(0, h.score, 1);
      }
    }
  }

  // ---- The embedding ----

  /** The magnitude is the non-negative root of the sum of squares. */
  ghost predicate IsMagnitude(m: real, v: seq<real>) {
    m >= 0.0 && Square(m) == SumOfSquares(v)
  }

  function Normalise(v: seq<real>, magnitude: real): seq<real> {
    if magnitude == 0.0 then v else Scale(v, magnitude)
  }

  lemma UnitFactor(x: real, k: real)
    requires k > 0.0 && x * k == k
    ensures x == 1.0
  {
    assert (x - 1.0) * k == 0.0;
  }

  /** Dividing by the magnitude leaves unit length; only the zero vector stays as it is. */
  lemma NormaliseNormalises(v: seq<real>, magnitude: real)
    requires IsMagnitude(magnitude, v)
    ensures SumOfSquares(Normalise(v, magnitude)) == if IsZero(v) then 0.0 else 1.0
    ensures Normalised(Normalise(v, magnitude))
  {
    SquaresArePositive(v);
    SquareSign(magnitude);
    if magnitude != 0.0 {
      ScaledSquares(v, magnitude);
      UnitFactor(SumOfSquares(Scale(v, magnitude)), Square(magnitude));
    }
  }

  lemma NormaliseScales(v: seq<real>, magnitude: real)
    requires IsMagnitude(magnitude, v)
    ensures forall i :: 0 <= i < |v| ==> Normalise(v, magnitude)[i] * magnitude == v[i]
  {
    SquaresArePositive(v);
    SquareSign(magnitude);
  }

  lemma EmbeddedCounts(tokens: seq<string>, digest: string -> Digest, dimensions: nat, magnitude: real)
    requires dimensions > 0 && IsMagnitude(magnitude, Counts(Slots(tokens, digest, dimensions), dimensions))
    ensures
      var r := Normalise(Counts(Slots(tokens, digest, dimensions), dimensions), magnitude);
      && |r| == dimensions
      && forall i :: 0 <= i < dimensions ==>
           r[i] * magnitude ==
             (|Landing(tokens, digest, dimensions, i, 0)| - |Landing(tokens, digest, dimensions, i, 1)|) as real
  {
    hide CountAt, Landing, Slots, SumOfSquares;
    NormaliseScales(Counts(Slots(tokens, digest, dimensions), dimensions), magnitude);
    forall i | 0 <= i < dimensions
      ensures CountAt(Slots(tokens, digest, dimensions), i)
           == (|Landing(tokens, digest, dimensions, i, 0)| - |Landing(tokens, digest, dimensions, i, 1)|) as real
    {
      CountMeaning(tokens, digest, dimensions, i);
    }
  }

  lemma DifferenceOfSquares(m: real, n: real)
    ensures (m - n) * (m + n) == m * m - n * n
  {
  }

  lemma NonZeroProduct(x: real, y: real)
    ensures x * y == 0.0 ==> x == 0.0 || y == 0.0
  {
  }

  lemma MagnitudeIsUnique(m: real, n: real, v: seq<real>)
    requires IsMagnitude(m, v) && IsMagnitude(n, v)
    ensures m == n
  {
    DifferenceOfSquares(m, n);
    NonZeroProduct(m - n, m + n);
  }

  class LocalHashEmbedding {
    const dimensions: nat

    constructor (dimensions: nat)
      requires dimensions >= 32
      ensures this.dimensions == dimensions
    {
      this.dimensions := dimensions;
    }

    /** The counting loop, in place. */
    method Accumulate(vector: array<real>, tokens: seq<string>, digest: string -> Digest)
      requires vector.Length == dimensions && dimensions > 0
      requires forall i :: 0 <= i < vector.Length ==> vector[i] == 0.0
      modifies vector
      ensures vector[..] == Counts(Slots(tokens, digest, dimensions), dimensions)
      ensures forall i :: 0 <= i < dimensions ==>
        vector[i] == (|Landing(tokens, digest, dimensions, i, 0)| - |Landing(tokens, digest, dimensions, i, 1)|) as real
    {
      hide Landing;
      ghost var slots := Slots(tokens, digest, dimensions);
      for k := 0 to |tokens|
        invariant forall i :: 0 <= i < dimensions ==> vector[i] == CountAt(slots[..k], i)
      {
        var slot := SlotOf(digest(tokens[k]), dimensions);
        assert slots[..k + 1] == slots[..k] + [slot];
        forall i | 0 <= i < dimensions
          ensures CountAt(slots[..k + 1], i) == CountAt(slots[..k], i) + (if slot.index == i then slot.sign else 0.0)
        {
          CountAppend(slots[..k], slot, i);
        }
        vector[slot.index] := vector[slot.index] + slot.sign;
      }
      assert slots[..|tokens|] == slots;
      forall i | 0 <= i < dimensions
        ensures vector[i]
             == (|Landing(tokens, digest, dimensions, i, 0)| - |Landing(tokens, digest, dimensions, i, 1)|) as real
      {
        CountMeaning(tokens, digest, dimensions, i);
      }
    }

    /** The root is supplied: `magnitude` is what math.sqrt would give without rounding. */
    method Embed(folded: string, digest: string -> Digest, magnitude: real) returns (r: seq<real>)
      requires dimensions > 0
      requires IsMagnitude(magnitude, Counts(Slots(Tokens.Find(folded), digest, dimensions), dimensions))
      ensures r == Normalise(Counts(Slots(Tokens.Find(folded), digest, dimensions), dimensions), magnitude)
      ensures |r| == dimensions && Normalised(r)
      ensures
        var tokens := Tokens.Find(folded);
        forall i :: 0 <= i < dimensions ==>
          r[i] * magnitude ==
            (|Landing(tokens, digest, dimensions, i, 0)| - |Landing(tokens, digest, dimensions, i, 1)|) as real
    {
      hide Landing, CountAt, SumOfSquares, Counts, Slots;
      var vector := new real[dimensions](_ => 0.0);
      var tokens := Tokens.Find(folded);
      Accumulate(vector, tokens, digest);
      NormaliseNormalises(vector[..], magnitude);
      EmbeddedCounts(tokens, digest, dimensions, magnitude);
      if magnitude == 0.0 {
        return vector[..];
      }
      r := Scale(vector[..], magnitude);
    }
  }

  lemma {:induction false} SlotsPermute(a: seq<string>, b: seq<string>, digest: string -> Digest, dimensions: nat)
    requires dimensions > 0
    requires multiset(a) == multiset(b)
    ensures multiset(Slots(a, digest, dimensions)) == multiset(Slots(b, digest, dimensions))
  {
    if a == [] {
      assert |multiset(b)| == 0;
      assert b == [];
    } else {
      var k := TakeOut(a, b);
      SlotsPermute(a[1..], b[..k] + b[k + 1..], digest, dimensions);
      SlotsRemove(b, k, digest, dimensions);
      assert Slots(a, digest, dimensions) == [SlotOf(digest(a[0]), dimensions)] + Slots(a[1..], digest, dimensions);
    }
  }

  lemma SlotsRemove(b: seq<string>, k: nat, digest: string -> Digest, dimensions: nat)
    requires dimensions > 0 && k < |b|
    ensures multiset(Slots(b, digest, dimensions))
         == multiset(Slots(b[..k] + b[k + 1..], digest, dimensions)) + multiset{SlotOf(digest(b[k]), dimensions)}
  {
    var x, y := Slots(b[..k], digest, dimensions), Slots(b[k + 1..], digest, dimensions);
    var s := SlotOf(digest(b[k]), dimensions);
    assert Slots(b, digest, dimensions) == x + ([s] + y);
    assert Slots(b[..k] + b[k + 1..], digest, dimensions) == x + y;
  }

  /** Texts with the same tokens, in any order, have the same embedding. */
  lemma EmbeddingIgnoresTokenOrder(a: string, b: string, digest: string -> Digest, dimensions: nat, m: real, n: real)
    requires dimensions > 0
    requires multiset(Tokens.Find(a)) == multiset(Tokens.Find(b))
    requires IsMagnitude(m, Counts(Slots(Tokens.Find(a), digest, dimensions), dimensions))
    requires IsMagnitude(n, Counts(Slots(Tokens.Find(b), digest, dimensions), dimensions))
    ensures Normalise(Counts(Slots(Tokens.Find(a), digest, dimensions), dimensions), m)
         == Normalise(Counts(Slots(Tokens.Find(b), digest, dimensions), dimensions), n)
  {
    var x, y := Slots(Tokens.Find(a), digest, dimensions), Slots(Tokens.Find(b), digest, dimensions);
    SlotsPermute(Tokens.Find(a), Tokens.Find(b), digest, dimensions);
    forall i | 0 <= i < dimensions ensures CountAt(x, i) == CountAt(y, i) {
      CountIgnoresOrder(x, y, i);
    }
    assert Counts(x, dimensions) == Counts(y, dimensions);
    MagnitudeIsUnique(m, n, Counts(x, dimensions));
  }
}
