/** Maximal marginal relevance (memory/mmr.py). Scores are exact reals. */
module MmrRerank {
  import opened FiniteSets
  import opened RealOrder
  import opened Wrappers
  import opened StableSort

  // ----- tokens -------------------------------------------------------------------------------

  function CharAt(text: string, i: nat): string
    requires i < |text|
  {
    [text[i]]
  }

  function PairAt(text: string, i: nat): string
    requires i + 1 < |text|
  {
    [text[i], text[i + 1]]
  }

  predicate CjkPairAt(text: string, i: nat, isCjk: char -> bool) {
    i + 1 < |text| && isCjk(text[i]) && isCjk(text[i + 1])
  }

  /** The CJK unigrams of a text and the bigrams of CJK characters that stand side by side in it. */
  ghost function CjkTokens(text: string, isCjk: char -> bool): set<string> {
    (set i | 0 <= i < |text| && isCjk(text[i]) :: CharAt(text, i)) +
    (set i: nat | i < |text| && CjkPairAt(text, i, isCjk) :: PairAt(text, i))
  }

  ghost predicate Listed(positions: seq<nat>, j: nat) {
    exists p :: 0 <= p < |positions| && positions[p] == j
  }

  /** The positions of the CJK characters, in order. */
  ghost predicate AreCjkPositions(text: string, positions: seq<nat>, upTo: nat, isCjk: char -> bool) {
    && upTo <= |text|
    && (forall p :: 0 <= p < |positions| ==> positions[p] < upTo && isCjk(text[positions[p]]))
    && (forall p, q :: 0 <= p < q < |positions| ==> positions[p] < positions[q])
    && (forall j: nat :: j < upTo && isCjk(text[j]) ==> Listed(positions, j))
  }

  method CjkPositions(text: string, isCjk: char -> bool) returns (positions: seq<nat>)
    ensures AreCjkPositions(text, positions, |text|, isCjk)
  {
    positions := [];
    for i := 0 to |text|
      invariant AreCjkPositions(text, positions, i, isCjk)
    {
      if isCjk(text[i]) {
        ListedMore(positions, i);
        positions := positions + [i];
      }
    }
  }

  lemma ListedMore(positions: seq<nat>, i: nat)
    ensures Listed(positions + [i], i)
    ensures forall j :: Listed(positions, j) ==> Listed(positions + [i], j)
  {
    var more := positions + [i];
    assert more[|positions|] == i;
    forall j | Listed(positions, j) ensures Listed(more, j) {
      var p :| 0 <= p < |positions| && positions[p] == j;
      assert more[p] == j;
    }
  }

  /** `text` is already lower-cased; `runs` is what the ASCII expression finds in it. */
  method Tokenize(text: string, runs: set<string>, isCjk: char -> bool) returns (tokens: set<string>)
    ensures tokens == if text == "" then {} else runs + CjkTokens(text, isCjk)
    ensures forall t :: t in tokens <==>
      text != "" &&
      (t in runs
       || (exists i :: 0 <= i < |text| && isCjk(text[i]) && t == [text[i]])
       || (exists i :: 0 <= i < |text| - 1 && isCjk(text[i]) && isCjk(text[i + 1]) && t == [text[i]] + [text[i + 1]]))
  {
    if text == "" { return {}; }
    var positions := CjkPositions(text, isCjk);
    tokens := runs;
    for p := 0 to |positions|
      invariant tokens == runs + Unigrams(text, positions, p)
    {
      tokens := tokens + {CharAt(text, positions[p])};
    }
    ghost var before := tokens;
    for p := 0 to if positions == [] then 0 else |positions| - 1
      invariant tokens == before + Bigrams(text, positions, p)
    {
      if positions[p + 1] == positions[p] + 1 {
        tokens := tokens + {PairAt(text, positions[p])};
      }
    }
    TokensOfPositions(text, positions, isCjk);
    CjkTokensMean(text, isCjk);
  }

  lemma CjkTokensMean(text: string, isCjk: char -> bool)
    ensures forall t :: t in CjkTokens(text, isCjk) <==>
      || (exists i :: 0 <= i < |text| && isCjk(text[i]) && t == [text[i]])
      || (exists i :: 0 <= i < |text| - 1 && isCjk(text[i]) && isCjk(text[i + 1]) && t == [text[i]] + [text[i + 1]])
  {
    forall i | 0 <= i < |text| - 1 ensures PairAt(text, i) == [text[i]] + [text[i + 1]] {
    }
    forall t ensures t in CjkTokens(text, isCjk) <==>
      || (exists i :: 0 <= i < |text| && isCjk(text[i]) && t == [text[i]])
      || (exists i :: 0 <= i < |text| - 1 && isCjk(text[i]) && isCjk(text[i + 1]) && t == [text[i]] + [text[i + 1]])
    {
      if i :| 0 <= i < |text| && isCjk(text[i]) && t == [text[i]] {
        assert t == CharAt(text, i);
      }
      if i :| 0 <= i < |text| - 1 && isCjk(text[i]) && isCjk(text[i + 1]) && t == [text[i]] + [text[i + 1]] {
        assert CjkPairAt(text, i, isCjk) && t == PairAt(text, i);
      }
    }
  }

  ghost predicate Inside(text: string, positions: seq<nat>) {
    forall p :: 0 <= p < |positions| ==> positions[p] < |text|
  }

  /** The characters at the first n positions. */
  ghost function Unigrams(text: string, positions: seq<nat>, n: nat): set<string>
    requires Inside(text, positions) && n <= |positions|
  {
    if n == 0 then {} else Unigrams(text, positions, n - 1) + {CharAt(text, positions[n - 1])}
  }

  /** The next position is that of the next character. */
  predicate NextTo(positions: seq<nat>, q: nat) {
    q + 1 < |positions| && positions[q + 1] == positions[q] + 1
  }

  /** The pairs that start at the first n positions and whose next position is the next character. */
  ghost function Bigrams(text: string, positions: seq<nat>, n: nat): set<string>
    requires Inside(text, positions) && (n > 0 ==> n < |positions|)
  {
    if n == 0 then {}
    else if NextTo(positions, n - 1)
      then Bigrams(text, positions, n - 1) + {PairAt(text, positions[n - 1])}
    else Bigrams(text, positions, n - 1)
  }

  lemma {:induction false} InUnigrams(text: string, positions: seq<nat>, n: nat, t: string)
    requires Inside(text, positions) && n <= |positions|
    ensures t in Unigrams(text, positions, n) <==> exists q :: 0 <= q < n && t == CharAt(text, positions[q])
  {
    if n == 0 {
    } else {
      InUnigrams(text, positions, n - 1, t);
    }
  }

  lemma TokensOfPositions(text: string, positions: seq<nat>, isCjk: char -> bool)
    requires AreCjkPositions(text, positions, |text|, isCjk)
    ensures CjkTokens(text, isCjk) == Unigrams(text, positions, |positions|) +
      Bigrams(text, positions, if positions == [] then 0 else |positions| - 1)
  {
    UnigramsAreTokens(text, positions, isCjk);
    BigramsAreTokens(text, positions, isCjk);
  }

  lemma UnigramsAreTokens(text: string, positions: seq<nat>, isCjk: char -> bool)
    requires AreCjkPositions(text, positions, |text|, isCjk)
    ensures Unigrams(text, positions, |positions|) == set i | 0 <= i < |text| && isCjk(text[i]) :: CharAt(text, i)
  {
    var found := set i | 0 <= i < |text| && isCjk(text[i]) :: CharAt(text, i);
    forall t ensures t in found <==> t in Unigrams(text, positions, |positions|) {
      InUnigrams(text, positions, |positions|, t);
    }
  }

  lemma BigramsAreTokens(text: string, positions: seq<nat>, isCjk: char -> bool)
    requires AreCjkPositions(text, positions, |text|, isCjk)
    ensures Bigrams(text, positions, if positions == [] then 0 else |positions| - 1) ==
      set i: nat | i < |text| && CjkPairAt(text, i, isCjk) :: PairAt(text, i)
  {
    var n := if positions == [] then 0 else |positions| - 1;
    var found := set i: nat | i < |text| && CjkPairAt(text, i, isCjk) :: PairAt(text, i);
    forall t ensures t in found <==> t in Bigrams(text, positions, n) {
      if t in found {
        var i: nat :| i < |text| && CjkPairAt(text, i, isCjk) && t == PairAt(text, i);
        PairIsBigram(text, positions, isCjk, i);
      }
      if t in Bigrams(text, positions, n) {
        var i := BigramIsPair(text, positions, isCjk, n, t);
      }
    }
  }

  lemma PairIsBigram(text: string, positions: seq<nat>, isCjk: char -> bool, i: nat)
    requires AreCjkPositions(text, positions, |text|, isCjk) && CjkPairAt(text, i, isCjk)
    ensures positions != [] && PairAt(text, i) in Bigrams(text, positions, |positions| - 1)
  {
    var q := PlaceOf(text, positions, isCjk, i);
    BigramAt(text, positions, |positions| - 1, q);
  }

  lemma {:induction false} BigramAt(text: string, positions: seq<nat>, n: nat, q: nat)
    requires Inside(text, positions) && n < |positions| && q < n && NextTo(positions, q)
    ensures PairAt(text, positions[q]) in Bigrams(text, positions, n)
  {
    if q == n - 1 {
    } else {
      BigramAt(text, positions, n - 1, q);
    }
  }

  lemma {:induction false} BigramIsPair(text: string, positions: seq<nat>, isCjk: char -> bool, n: nat, t: string)
    returns (i: nat)
    requires AreCjkPositions(text, positions, |text|, isCjk) && (n > 0 ==> n < |positions|)
    requires t in Bigrams(text, positions, n)
    ensures i < |text| && CjkPairAt(text, i, isCjk) && t == PairAt(text, i)
  {
    if NextTo(positions, n - 1) && t == PairAt(text, positions[n - 1]) {
      i := positions[n - 1];
    } else {
      i := BigramIsPair(text, positions, isCjk, n - 1, t);
    }
  }

  /** The character behind a CJK character is listed right behind it. */
  lemma PlaceOf(text: string, positions: seq<nat>, isCjk: char -> bool, i: nat) returns (q: nat)
    requires AreCjkPositions(text, positions, |text|, isCjk) && CjkPairAt(text, i, isCjk)
    ensures NextTo(positions, q) && positions[q] == i
  {
    assert Listed(positions, i) && Listed(positions, i + 1);
    var a: nat :| a < |positions| && positions[a] == i;
    var b: nat :| b < |positions| && positions[b] == i + 1;
    Consecutive(positions, a, b);
    q := a;
  }

  lemma Consecutive(positions: seq<nat>, a: nat, b: nat)
    requires forall p, q :: 0 <= p < q < |positions| ==> positions[p] < positions[q]
    requires a < |positions| && b < |positions| && positions[b] == positions[a] + 1
    ensures b == a + 1
  {
    assert a + 1 < |positions| ==> positions[a] < positions[a + 1];
  }

  // ----- Jaccard similarity -----------------------------------------------------------------------

  function Jaccard(a: set<string>, b: set<string>): (s: real)
    ensures 0.0 <= s <= 1.0
  {
    if a == {} && b == {} then 1.0
    else
      UnionIsPositive(a, b);
      SubsetSize(a * b, a + b);
      Ratio(|a * b|, |a + b|)
  }

  function Ratio(n: nat, d: nat): (r: real)
    requires 0 < d && n <= d
    ensures 0.0 <= r <= 1.0
  {
    n as real / d as real
  }

  lemma UnionIsPositive(a: set<string>, b: set<string>)
    requires a != {} || b != {}
    ensures |a + b| > 0
  {
    assert a + b != {};
  }

  /** Number of tokens in exactly one of the sets. */
  function Differ(a: set<string>, b: set<string>): nat {
    |a - b| + |b - a|
  }

  lemma Sizes(a: set<string>, b: set<string>)
    ensures |a * b| + Differ(a, b) == |a + b|
    ensures 2 * |a + b| == |a| + |b| + Differ(a, b)
    ensures |b| <= |a| + Differ(a, b)
  {
    assert a == (a * b) + (a - b);
    assert b == (a * b) + (b - a);
    assert a + b == (a * b) + (a - b) + (b - a);
  }

  lemma DifferTriangle(a: set<string>, b: set<string>, c: set<string>)
    ensures Differ(a, c) <= Differ(a, b) + Differ(b, c)
  {
    assert a - c <= (a - b) + (b - c);
    assert c - a <= (c - b) + (b - a);
    SubsetSize(a - c, (a - b) + (b - c));
    SubsetSize(c - a, (c - b) + (b - a));
  }

  lemma CrossMultiply(m: real, c: real, n: real, d: real)
    requires 0.0 < c && 0.0 < d && m * d <= n * c
    ensures m / c <= n / d
  {
    var x, y := m / c, n / d;
    assert x * c == m && y * d == n;
    assert x * (c * d) == m * d && y * (c * d) == n * c;
    assert c * d > 0.0;
    if x > y {
      ScaledStrictly(c * d, y, x);
      assert false;
    }
  }

  /** One minus the similarity: the share of the union that lies in one set only. */
  lemma JaccardDistance(a: set<string>, b: set<string>, d: real, u: real)
    requires a != {} || b != {}
    requires d == Differ(a, b) as real && u == |a + b| as real
    ensures 0.0 <= d <= u && 0.0 < u && 1.0 - Jaccard(a, b) == d / u
  {
    Sizes(a, b);
    UnionIsPositive(a, b);
    Complement(|a * b| as real, d, u);
  }

  lemma Complement(i: real, d: real, u: real)
    requires 0.0 < u && i + d == u
    ensures 1.0 - i / u == d / u
  {
    assert i == u - d;
    assert (u - d) / u == u / u - d / u;
  }

  /** The fraction p/f only grows with p when its denominator grows as much, and the right-hand
      fractions only lose by a larger denominator. */
  lemma FractionTriangle(p: real, q: real, r: real, f: real, c: real, e: real)
    requires 0.0 <= p <= q + r && 0.0 <= q && 0.0 <= r && p <= f && 0.0 < f && 0.0 < c && 0.0 < e
    requires c <= f - p + q + r && e <= f - p + q + r
    ensures p / f <= q / c + r / e
  {
    FractionGrows(p, f, q + r, f - p + q + r);
    SumOfFractions(q, r, c, e, f - p + q + r);
  }

  lemma FractionGrows(p: real, f: real, s: real, d: real)
    requires 0.0 <= p <= s && p <= f && 0.0 < f && d == f - p + s
    ensures p / f <= s / d
  {
    ScaledOrder(f - p, p, s);
    assert p * d == (f - p) * p + p * s;
    assert s * f == (f - p) * s + p * s;
    CrossMultiply(p, f, s, d);
  }

  lemma SumOfFractions(m: real, n: real, c: real, e: real, d: real)
    requires 0.0 <= m && 0.0 <= n && 0.0 < c <= d && 0.0 < e <= d
    ensures (m + n) / d <= m / c + n / e
  {
    LargerDenominator(m, c, d);
    LargerDenominator(n, e, d);
    SplitFraction(m, n, d);
  }

  lemma LargerDenominator(m: real, c: real, d: real)
    requires 0.0 <= m && 0.0 < c <= d
    ensures m / d <= m / c
  {
    ScaledOrder(m, c, d);
    CrossMultiply(m, d, m, c);
  }

  lemma SplitFraction(m: real, n: real, d: real)
    requires d > 0.0
    ensures (m + n) / d == m / d + n / d
  {
  }

  /** The triangle inequality of Jaccard distance, for all token sets, the empty ones included. */
  lemma SimilarityTriangle(a: set<string>, b: set<string>, c: set<string>)
    ensures Jaccard(a, c) >= Jaccard(a, b) + Jaccard(b, c) - 1.0
  {
    if b == {} {
      DisjointFromEmpty(a);
      DisjointFromEmpty(c);
      JaccardSymmetric(b, c);
    } else if a != {} || c != {} {
      var p, q, r := Differ(a, c) as real, Differ(a, b) as real, Differ(b, c) as real;
      JaccardDistance(a, c, p, |a + c| as real);
      JaccardDistance(a, b, q, |a + b| as real);
      JaccardDistance(b, c, r, |b + c| as real);
      UnionsAreClose(a, b, c);
      FractionTriangle(p, q, r, |a + c| as real, |a + b| as real, |b + c| as real);
    }
  }

  lemma UnionsAreClose(a: set<string>, b: set<string>, c: set<string>)
    ensures Differ(a, c) <= Differ(a, b) + Differ(b, c)
    ensures |a + b| + Differ(a, c) <= |a + c| + Differ(a, b) + Differ(b, c)
    ensures |b + c| + Differ(a, c) <= |a + c| + Differ(a, b) + Differ(b, c)
  {
    DifferTriangle(a, b, c);
    Sizes(a, c);
    Sizes(a, b);
    Sizes(b, c);
    Sizes(c, b);
  }

  lemma DisjointFromEmpty(a: set<string>)
    ensures a != {} ==> Jaccard(a, {}) == 0.0
  {
    assert a * {} == {};
    if a != {} {
      UnionIsPositive(a, {});
      assert Jaccard(a, {}) == Ratio(0, |a + {}|);
    }
  }

  lemma JaccardSymmetric(a: set<string>, b: set<string>)
    ensures Jaccard(a, b) == Jaccard(b, a)
  {
    assert a * b == b * a && a + b == b + a;
  }

  // ----- the redundancy penalty -----------------------------------------------------------------

  datatype Item = Item(content: string, distance: Option<real>)

  function Max(x: real, y: real): real { if x >= y then x else y }

  /** Largest similarity of `tokens` to any chosen set; 0 when nothing is chosen. */
  function MaxSim(tokens: set<string>, chosen: seq<set<string>>): (m: real)
    ensures 0.0 <= m <= 1.0
  {
    if chosen == [] then 0.0
    else Max(MaxSim(tokens, chosen[..|chosen| - 1]), Jaccard(tokens, chosen[|chosen| - 1]))
  }

  /** Two candidates' penalties differ by no more than the candidates themselves do. */
  lemma {:induction false} PenaltyIsLipschitz(a: set<string>, b: set<string>, chosen: seq<set<string>>)
    ensures MaxSim(a, chosen) - MaxSim(b, chosen) <= 1.0 - Jaccard(a, b)
    ensures MaxSim(b, chosen) - MaxSim(a, chosen) <= 1.0 - Jaccard(a, b)
  {
    if chosen == [] {
    } else {
      var last := chosen[|chosen| - 1];
      PenaltyIsLipschitz(a, b, chosen[..|chosen| - 1]);
      SimilarityTriangle(b, a, last);
      SimilarityTriangle(a, b, last);
      JaccardSymmetric(a, b);
    }
  }

  lemma {:induction false} PenaltyGrows(tokens: set<string>, chosen: seq<set<string>>, more: seq<set<string>>)
    ensures MaxSim(tokens, chosen) <= MaxSim(tokens, chosen + more)
  {
    if more == [] {
      assert chosen + more == chosen;
    } else {
      PenaltyGrows(tokens, chosen, more[..|more| - 1]);
      assert (chosen + more)[..|chosen + more| - 1] == chosen + more[..|more| - 1];
    }
  }

  // ----- scores and greedy selections ---------------------------------------------------------------

  function Relevance(item: Item): (r: real)
    ensures 0.0 <= r <= 1.0
  {
    var d := if item.distance.None? then 1.0 else item.distance.value;
    1.0 - (if d < 0.0 then 0.0 else if d > 1.0 then 1.0 else d)
  }

  function TokenSets(tokens: seq<set<string>>, picks: seq<nat>): (r: seq<set<string>>)
    requires forall i :: 0 <= i < |picks| ==> picks[i] < |tokens|
    ensures |r| == |picks|
  {
    Permute(tokens, picks)
  }

  function Score(items: seq<Item>, tokens: seq<set<string>>, weight: real, picks: seq<nat>, i: nat): real
    requires |tokens| == |items| && i < |items|
    requires forall p :: 0 <= p < |picks| ==> picks[p] < |items|
  {
    Blend(weight, Relevance(items[i]), MaxSim(tokens[i], TokenSets(tokens, picks)))
  }

  function Blend(weight: real, relevance: real, redundancy: real): real {
    weight * relevance - (1.0 - weight) * redundancy
  }

  lemma BlendFalls(weight: real, relevance: real, less: real, more: real)
    requires weight < 1.0 && less <= more
    ensures Blend(weight, relevance, more) <= Blend(weight, relevance, less)
  {
    ScaledOrder(1.0 - weight, less, more);
  }

  /** Candidate i is preferred to candidate j: a higher score, or the same score and listed earlier. */
  predicate Preferred(items: seq<Item>, tokens: seq<set<string>>, weight: real, picks: seq<nat>, i: nat, j: nat)
    requires |tokens| == |items| && i < |items| && j < |items|
    requires forall p :: 0 <= p < |picks| ==> picks[p] < |items|
  {
    var s, t := Score(items, tokens, weight, picks, i), Score(items, tokens, weight, picks, j);
    t < s || (t == s && i <= j)
  }

  /** `i` is what the greedy step must take after `picks`: highest score, earliest on ties. */
  ghost predicate IsBest(items: seq<Item>, tokens: seq<set<string>>, weight: real, picks: seq<nat>, i: nat)
    requires |tokens| == |items| && forall p :: 0 <= p < |picks| ==> picks[p] < |items|
  {
    && i < |items| && i !in picks
    && forall j: nat :: j < |items| && j !in picks ==> Preferred(items, tokens, weight, picks, i, j)
  }

  ghost predicate IsGreedy(items: seq<Item>, tokens: seq<set<string>>, weight: real, picks: seq<nat>)
    requires |tokens| == |items|
  {
    && (forall p :: 0 <= p < |picks| ==> picks[p] < |items|)
    && (forall p :: 0 <= p < |picks| ==> IsBest(items, tokens, weight, picks[..p], picks[p]))
  }

  function TokenizeAll(items: seq<Item>, tokenize: string -> set<string>): (r: seq<set<string>>)
    ensures |r| == |items| && forall i :: 0 <= i < |items| ==> r[i] == tokenize(items[i].content)
  {
    seq(|items|, i requires 0 <= i < |items| => tokenize(items[i].content))
  }

  function Min(a: int, b: int): int { if a <= b then a else b }

  /** `m.get("distance") or 1.0`: a distance of exactly 0 reads as 1.0 here. */
  function PureRelevanceKey(item: Item): Key {
    Fin(if item.distance.None? || item.distance.value == 0.0 then 1.0 else item.distance.value)
  }

  function PureRelevanceKeys(items: seq<Item>): (keys: seq<Key>)
    ensures |keys| == |items|
  {
    seq(|items|, i requires 0 <= i < |items| => PureRelevanceKey(items[i]))
  }

  /** list(range(n)) */
  function Positions(n: nat): (r: seq<nat>)
    ensures |r| == n && forall j :: 0 <= j < n ==> r[j] == j && j in r
  {
    if n == 0 then [] else Positions(n - 1) + [n - 1]
  }

  /** The greedy branch: positions in selection order. */
  method SelectPicks(items: seq<Item>, tokens: seq<set<string>>, weight: real, k: int) returns (picks: seq<nat>)
    requires |tokens| == |items| && k > 0
    ensures |picks| == Min(k, |items|)
    ensures IsGreedy(items, tokens, weight, picks)
  {
    picks := [];
    var remaining: seq<nat> := Positions(|items|);
    while remaining != [] && |picks| < k
      invariant |picks| <= k && |picks| + |remaining| == |items|
      invariant forall r :: 0 <= r < |remaining| ==> remaining[r] < |items|
      invariant forall r, s :: 0 <= r < s < |remaining| ==> remaining[r] < remaining[s]
      invariant forall j: nat :: j < |items| ==> (j in remaining <==> j !in picks)
      invariant IsGreedy(items, tokens, weight, picks)
      decreases |remaining|
    {
      var best := BestOf(items, tokens, weight, picks, remaining);
      ghost var was := picks;
      picks := picks + [remaining[best]];
      assert IsBest(items, tokens, weight, was, remaining[best]);
      forall p | 0 <= p < |picks|
        ensures IsBest(items, tokens, weight, picks[..p], picks[p])
      {
        assert picks[..p] == was[..p];
        assert p == |was| ==> was[..p] == was;
      }
      RemovedOne(remaining, best);
      remaining := remaining[..best] + remaining[best + 1..];
    }
  }

  lemma RemovedOne(s: seq<nat>, k: nat)
    requires k < |s| && forall r, t :: 0 <= r < t < |s| ==> s[r] < s[t]
    ensures forall j :: j in s[..k] + s[k + 1..] <==> j in s && j != s[k]
  {
    forall j | j in s && j != s[k] ensures j in s[..k] + s[k + 1..] {
      var i :| 0 <= i < |s| && s[i] == j;
      assert i < k ==> s[..k][i] == j;
      assert i > k ==> s[k + 1..][i - k - 1] == j;
    }
  }

  /** The inner loop: strict improvement only, so the earliest maximum wins. */
  method BestOf(items: seq<Item>, tokens: seq<set<string>>, weight: real, picks: seq<nat>, remaining: seq<nat>)
    returns (best: nat)
    requires |tokens| == |items| && remaining != []
    requires forall p :: 0 <= p < |picks| ==> picks[p] < |items|
    requires forall r :: 0 <= r < |remaining| ==> remaining[r] < |items|
    requires forall r, s :: 0 <= r < s < |remaining| ==> remaining[r] < remaining[s]
    requires forall j: nat :: j < |items| ==> (j in remaining <==> j !in picks)
    ensures best < |remaining| && IsBest(items, tokens, weight, picks, remaining[best])
  {
    best := 0;
    var bestScore := Score(items, tokens, weight, picks, remaining[0]);
    for r := 1 to |remaining|
      invariant best < r && bestScore == Score(items, tokens, weight, picks, remaining[best])
      invariant forall s :: 0 <= s < r ==> Preferred(items, tokens, weight, picks, remaining[best], remaining[s])
    {
      var score := Score(items, tokens, weight, picks, remaining[r]);
      if score > bestScore {
        best, bestScore := r, score;
      }
    }
    forall j: nat | j < |items| && j !in picks
      ensures Preferred(items, tokens, weight, picks, remaining[best], j)
    {
      var s :| 0 <= s < |remaining| && remaining[s] == j;
    }
  }

  method Rerank(items: seq<Item>, k: int, weight: real, tokenize: string -> set<string>)
    returns (result: seq<Item>)
    ensures k <= 0 || items == [] ==> result == []
    ensures |result| == if k <= 0 then 0 else if k < |items| then k else |items|
    ensures k > 0 && weight >= 1.0 ==>
      result == Sorted(items, PureRelevanceKeys(items))[..Min(k, |items|)]
    ensures k > 0 && weight < 1.0 ==>
      exists picks ::
        && IsGreedy(items, TokenizeAll(items, tokenize), weight, picks)
        && |picks| == Min(k, |items|)
        && result == Permute(items, picks)
  {
    if k <= 0 || items == [] {
      assert IsGreedy(items, TokenizeAll(items, tokenize), weight, []);
      assert k > 0 ==> Permute(items, []) == [];
      return [];
    }
    if weight >= 1.0 {
      return Sorted(items, PureRelevanceKeys(items))[..Min(k, |items|)];
    }
    var picks := SelectPicks(items, TokenizeAll(items, tokenize), weight, k);
    result := Permute(items, picks);
  }

  // ----- what greedy selections have in common -----------------------------------------------------

  /** The similarity of two token sets: shared tokens over all tokens, and 1 when there are none. */
  lemma JaccardMeans(a: set<string>, b: set<string>)
    ensures a == {} && b == {} ==> Jaccard(a, b) == 1.0
    ensures a != {} || b != {} ==> |a + b| > 0 && Jaccard(a, b) == |a * b| as real / |a + b| as real
  {
    if a != {} || b != {} {
      UnionIsPositive(a, b);
    }
  }

  /** The redundancy penalty is the largest similarity to a chosen set, and 0 when nothing is chosen. */
  lemma {:induction false} MaxSimIsLargest(tokens: set<string>, chosen: seq<set<string>>)
    ensures chosen == [] ==> MaxSim(tokens, chosen) == 0.0
    ensures forall i :: 0 <= i < |chosen| ==> Jaccard(tokens, chosen[i]) <= MaxSim(tokens, chosen)
    ensures chosen != [] ==> exists i :: 0 <= i < |chosen| && Jaccard(tokens, chosen[i]) == MaxSim(tokens, chosen)
  {
    if chosen == [] {
    } else {
      var n := |chosen| - 1;
      MaxSimIsLargest(tokens, chosen[..n]);
      forall i | 0 <= i < |chosen| ensures Jaccard(tokens, chosen[i]) <= MaxSim(tokens, chosen) {
        if i < n {
          assert chosen[..n][i] == chosen[i];
        }
      }
      if n > 0 && MaxSim(tokens, chosen) != Jaccard(tokens, chosen[n]) {
        var i :| 0 <= i < n && Jaccard(tokens, chosen[..n][i]) == MaxSim(tokens, chosen[..n]);
        assert chosen[i] == chosen[..n][i];
      }
    }
  }

  /** The score blends the clamped closeness with the penalty against what is picked. */
  lemma ScoreMeans(items: seq<Item>, tokens: seq<set<string>>, weight: real, picks: seq<nat>, i: nat,
                   chosen: seq<set<string>>)
    requires |tokens| == |items| && i < |items| && forall p :: 0 <= p < |picks| ==> picks[p] < |items|
    requires |chosen| == |picks| && forall p :: 0 <= p < |picks| ==> chosen[p] == tokens[picks[p]]
    ensures Score(items, tokens, weight, picks, i) ==
      Blend(weight, Relevance(items[i]), MaxSim(tokens[i], chosen))
  {
    assert TokenSets(tokens, picks) == chosen;
  }

  lemma RelevanceMeans(item: Item)
    ensures Relevance(item) ==
      if item.distance.None? || item.distance.value >= 1.0 then 0.0
      else if item.distance.value <= 0.0 then 1.0
      else 1.0 - item.distance.value
  {
  }

  lemma BlendMeans(weight: real, relevance: real, redundancy: real)
    ensures Blend(weight, relevance, redundancy) == weight * relevance - (1.0 - weight) * redundancy
  {
  }

  /** Every pick has the highest score of those not yet picked, and is listed before its equals. */
  lemma PickIsBest(items: seq<Item>, tokens: seq<set<string>>, weight: real, picks: seq<nat>, p: nat, j: nat)
    requires |tokens| == |items| && IsGreedy(items, tokens, weight, picks) && p < |picks|
    requires j < |items| && j !in picks[..p]
    ensures picks[p] < |items| && forall q :: 0 <= q < p ==> picks[q] < |items|
    ensures Score(items, tokens, weight, picks[..p], j) <= Score(items, tokens, weight, picks[..p], picks[p])
    ensures Score(items, tokens, weight, picks[..p], j) == Score(items, tokens, weight, picks[..p], picks[p]) ==>
      picks[p] <= j
  {
    assert IsBest(items, tokens, weight, picks[..p], picks[p]);
    assert Preferred(items, tokens, weight, picks[..p], picks[p], j);
  }

  lemma GreedyPicksAreDistinct(items: seq<Item>, tokens: seq<set<string>>, weight: real, picks: seq<nat>, p: nat,
                               q: nat)
    requires |tokens| == |items| && IsGreedy(items, tokens, weight, picks) && p < q < |picks|
    ensures picks[p] != picks[q]
  {
    assert picks[..q][p] == picks[p];
    assert IsBest(items, tokens, weight, picks[..q], picks[q]);
  }

  /** Asking for more never changes what came first: a shorter selection is a prefix of a longer one. */
  lemma {:induction false} SmallerKIsPrefix(items: seq<Item>, tokens: seq<set<string>>, weight: real,
                                             few: seq<nat>, many: seq<nat>)
    requires |tokens| == |items| && |few| <= |many|
    requires IsGreedy(items, tokens, weight, few) && IsGreedy(items, tokens, weight, many)
    ensures few == many[..|few|]
  {
    if few == [] {
    } else {
      var n := |few| - 1;
      forall p | 0 <= p < n
        ensures IsBest(items, tokens, weight, few[..n][..p], few[..n][p])
      {
        assert few[..n][..p] == few[..p];
      }
      SmallerKIsPrefix(items, tokens, weight, few[..n], many);
      assert IsBest(items, tokens, weight, few[..n], few[n]);
      assert IsBest(items, tokens, weight, many[..n], many[n]);
      assert few == few[..n] + [few[n]] && many[..n + 1] == many[..n] + [many[n]];
    }
  }

  /** The score at which each pick was made never rises, for every lambda below 1. */
  lemma PickScoresNeverIncrease(items: seq<Item>, tokens: seq<set<string>>, weight: real, picks: seq<nat>, p: nat)
    requires |tokens| == |items| && weight < 1.0 && IsGreedy(items, tokens, weight, picks) && p + 1 < |picks|
    ensures Score(items, tokens, weight, picks[..p + 1], picks[p + 1])
         <= Score(items, tokens, weight, picks[..p], picks[p])
  {
    var next := picks[p + 1];
    assert IsBest(items, tokens, weight, picks[..p], picks[p]);
    assert IsBest(items, tokens, weight, picks[..p + 1], next);
    assert picks[..p + 1] == picks[..p] + [picks[p]];
    assert Preferred(items, tokens, weight, picks[..p], picks[p], next);
    ScoreFalls(items, tokens, weight, picks[..p], picks[p], next);
  }

  /** One more pick can only lower a candidate's score. */
  lemma ScoreFalls(items: seq<Item>, tokens: seq<set<string>>, weight: real, picks: seq<nat>, pick: nat, i: nat)
    requires |tokens| == |items| && weight < 1.0 && i < |items| && pick < |items|
    requires forall p :: 0 <= p < |picks| ==> picks[p] < |items|
    ensures Score(items, tokens, weight, picks + [pick], i) <= Score(items, tokens, weight, picks, i)
  {
    var less, more := TokenSets(tokens, picks), TokenSets(tokens, picks + [pick]);
    assert more == less + [tokens[pick]];
    PenaltyGrows(tokens[i], less, [tokens[pick]]);
    BlendFalls(weight, Relevance(items[i]), MaxSim(tokens[i], less), MaxSim(tokens[i], more));
  }

  /** Distance as it is documented: a missing one counts as 1. */
  function Distance(item: Item): real {
    if item.distance.None? then 1.0 else item.distance.value
  }

  ghost predicate NearestFirst(items: seq<Item>) {
    forall i, j :: 0 <= i < j < |items| ==> Distance(items[i]) <= Distance(items[j])
  }

  /** Item p is ranked ahead of the perfect match q although it is farther away. */
  predicate Overtakes(items: seq<Item>, p: nat, q: nat)
    requires p < |items| && q < |items|
  {
    && Distance(items[q]) == 0.0 && 0.0 < Distance(items[p])
    && (Distance(items[p]) < 1.0 || (Distance(items[p]) == 1.0 && p < q))
  }

  /** The pure-relevance ranking is a ranking by distance exactly when no perfect match is overtaken. */
  lemma PureRelevanceIsByDistanceWhen(items: seq<Item>)
    ensures NearestFirst(Sorted(items, PureRelevanceKeys(items))) <==>
      forall p: nat, q: nat :: p < |items| && q < |items| ==> !Overtakes(items, p, q)
  {
    var keys := PureRelevanceKeys(items);
    var order, ranked := SortOrder(keys), Sorted(items, keys);
    SortOrderIsStable(keys);
    if forall p: nat, q: nat :: p < |items| && q < |items| ==> !Overtakes(items, p, q) {
      forall i, j | 0 <= i < j < |ranked| ensures Distance(ranked[i]) <= Distance(ranked[j]) {
        assert Before(keys, order[i], order[j]);
        assert !Overtakes(items, order[i], order[j]);
      }
    }
    if p: nat, q: nat :| p < |items| && q < |items| && Overtakes(items, p, q) {
      OvertakingShows(items, p, q);
    }
  }

  lemma NotAhead(keys: seq<Key>, order: seq<nat>, i: nat, j: nat)
    requires IsStableOrder(keys, order) && j <= i < |order|
    ensures !Before(keys, order[i], order[j])
  {
    if j < i {
      assert Before(keys, order[j], order[i]);
    }
  }

  lemma OvertakingShows(items: seq<Item>, p: nat, q: nat)
    requires p < |items| && q < |items| && Overtakes(items, p, q)
    ensures !NearestFirst(Sorted(items, PureRelevanceKeys(items)))
  {
    var keys := PureRelevanceKeys(items);
    var order, ranked := SortOrder(keys), Sorted(items, keys);
    SortOrderIsStable(keys);
    StableOrderIsOnto(keys, order, p);
    StableOrderIsOnto(keys, order, q);
    var i :| 0 <= i < |order| && order[i] == p;
    var j :| 0 <= j < |order| && order[j] == q;
    if j <= i {
      NotAhead(keys, order, i, j);
    }
    assert Distance(ranked[i]) > Distance(ranked[j]);
  }

  /** Where lambda reaches 1 the ranking uses another reading of distance: a perfect match, distance
      0, is ranked like a missing distance, behind everything closer than 1. */
  lemma PerfectMatchSinksAtLambdaOne(near: string, exact: string)
    ensures var items := [Item(exact, Some(0.0)), Item(near, Some(0.5))];
      Sorted(items, PureRelevanceKeys(items)) == [items[1], items[0]]
  {
    var items := [Item(exact, Some(0.0)), Item(near, Some(0.5))];
    var keys := PureRelevanceKeys(items);
    assert OrderUpTo(keys, 1) == [0];
    assert Insert(keys, [0], 1) == [1, 0];
    assert SortOrder(keys) == [1, 0];
  }
}
