/** Similarity scoring and best-match selection from utils/fuzzyMatch.ts:
    `calculateSimilarity`, `findBestMatch` and `fuzzyMatchLedger`. Scores
    are exact reals. */
module FuzzyMatch {
  import opened Wrappers
  import opened Text
  import Levenshtein
  import Keywords
  import Seqs

  /** `s.toLowerCase().trim()`: the form both sides are compared in. */
  function Normalize(s: string): string {
    Trim(Lower(s))
  }

  /** `Math.min(1.0, x)`. */
  function Cap(x: real): (r: real)
    ensures r <= 1.0 && r <= x
    ensures r == x || r == 1.0
  {
    if x <= 1.0 then x else 1.0
  }

  /** One minus the fraction `d / m` of the longer length that must be
      edited: in [0, 1], 1 exactly for a zero distance, and `m` times it is
      the number of characters left untouched. */
  function Closeness(d: nat, m: nat): (r: real)
    requires 0 < m && d <= m
    ensures 0.0 <= r <= 1.0
    ensures r == 1.0 <==> d == 0
    ensures r == 0.0 <==> d == m
    ensures r * (m as real) == (m - d) as real
  {
    var q := (d as real) / (m as real);
    Ratio(d, m);
    assert q * (m as real) == d as real;
    1.0 - q
  }

  lemma Ratio(d: nat, m: nat)
    requires 0 < m && d <= m
    ensures 0.0 <= (d as real) / (m as real) <= 1.0
    ensures (d as real) / (m as real) == 0.0 <==> d == 0
    ensures (d as real) / (m as real) == 1.0 <==> d == m
  {
  }

  /** `calculateSimilarity`: 1 for equal normalized strings (two blanks
      included), 0 when exactly one side is blank, otherwise the closeness
      of the edit distance to the longer length. */
  function Similarity(a: string, b: string): (r: real)
    ensures 0.0 <= r <= 1.0
    ensures r == 1.0 <==> Normalize(a) == Normalize(b)
    ensures (Normalize(a) == "") != (Normalize(b) == "") ==> r == 0.0
  {
    var s1 := Normalize(a);
    var s2 := Normalize(b);
    if s1 == s2 then 1.0
    else if |s1| == 0 || |s2| == 0 then 0.0
    else
      Levenshtein.ZeroIff(s1, s2);
      Closeness(Levenshtein.Distance(s1, s2), Levenshtein.Max(|s1|, |s2|))
  }

  /** The score is symmetric. */
  lemma SimilaritySymmetric(a: string, b: string)
    ensures Similarity(a, b) == Similarity(b, a)
  {
    Levenshtein.Symmetric(Normalize(a), Normalize(b));
  }

  /** Case and surrounding white space do not matter. */
  lemma SimilarityNormalized(a: string, a': string, b: string)
    requires Normalize(a) == Normalize(a')
    ensures Similarity(a, b) == Similarity(a', b)
  {
  }

  /** The shorter of two lengths over the longer, as a closeness: the
      best score two strings of these lengths can reach when they differ. */
  function LengthRatio(n1: nat, n2: nat): (r: real)
    requires n1 > 0 || n2 > 0
    ensures 0.0 <= r <= 1.0
    ensures r * (Levenshtein.Max(n1, n2) as real) == (if n1 <= n2 then n1 else n2) as real
  {
    var m := Levenshtein.Max(n1, n2);
    Closeness(if n1 <= n2 then m - n1 else m - n2, m)
  }

  /** Two different, non-blank normal forms score the closeness of their
      edit distance to the longer length. */
  lemma SimilarityCloseness(a: string, b: string)
    requires Normalize(a) != Normalize(b) && |Normalize(a)| > 0 && |Normalize(b)| > 0
    ensures var s1, s2 := Normalize(a), Normalize(b);
      Similarity(a, b) == Closeness(Levenshtein.Distance(s1, s2), Levenshtein.Max(|s1|, |s2|))
  {
  }

  /** The length ratio is the closeness of the length difference. */
  lemma LengthRatioGap(n1: nat, n2: nat, gap: nat, m: nat)
    requires n1 > 0 || n2 > 0
    requires m == Levenshtein.Max(n1, n2) && gap == if n1 <= n2 then m - n1 else m - n2
    ensures LengthRatio(n1, n2) == Closeness(gap, m)
  {
  }

  /** The score of two different strings is at most the shorter
      normalized length over the longer: the edit distance is at least the
      difference of the lengths. */
  lemma SimilarityLengthBound(a: string, b: string)
    requires Normalize(a) != Normalize(b)
    ensures |Normalize(a)| > 0 || |Normalize(b)| > 0
    ensures Similarity(a, b) <= LengthRatio(|Normalize(a)|, |Normalize(b)|)
  {
    var s1 := Normalize(a);
    var s2 := Normalize(b);
    if |s1| > 0 && |s2| > 0 {
      NonBlankLengthBound(a, b);
    } else {
      assert s1 == "" || s2 == "";
      assert Similarity(a, b) == 0.0;
    }
  }

  /** The bound when neither side is blank: the distance is at least the
      length difference, and closeness falls as the distance grows. */
  lemma NonBlankLengthBound(a: string, b: string)
    requires Normalize(a) != Normalize(b) && |Normalize(a)| > 0 && |Normalize(b)| > 0
    ensures Similarity(a, b) <= LengthRatio(|Normalize(a)|, |Normalize(b)|)
  {
    var s1 := Normalize(a);
    var s2 := Normalize(b);
    var m := Levenshtein.Max(|s1|, |s2|);
    var gap := if |s1| <= |s2| then m - |s1| else m - |s2|;
    var d := Levenshtein.Distance(s1, s2);
    assert Similarity(a, b) == Closeness(d, m) by {
      SimilarityCloseness(a, b);
    }
    assert LengthRatio(|s1|, |s2|) == Closeness(gap, m) by {
      LengthRatioGap(|s1|, |s2|, gap, m);
    }
    assert gap <= d <= m;
    ClosenessAntitone(gap, d, m);
  }

  /** A larger distance over the same length is less close. */
  lemma ClosenessAntitone(d1: nat, d2: nat, m: nat)
    requires 0 < m && d1 <= d2 <= m
    ensures Closeness(d2, m) <= Closeness(d1, m)
  {
    DivMono(d1 as real, d2 as real, m as real);
  }

  lemma DivMono(x: real, y: real, m: real)
    requires 0.0 < m && x <= y
    ensures x / m <= y / m
  {
    assert y / m - x / m == (y - x) / m;
  }

  /** The score as the code computes it, with the matrix algorithm. */
  method Score(a: string, b: string) returns (r: real)
    ensures r == Similarity(a, b)
  {
    var s1 := Normalize(a);
    var s2 := Normalize(b);
    if s1 == s2 {
      return 1.0;
    }
    if |s1| == 0 || |s2| == 0 {
      return 0.0;
    }
    var d := Levenshtein.Compute(s1, s2);
    var m := if |s1| >= |s2| then |s1| else |s2|;
    r := 1.0 - (d as real) / (m as real);
  }

  datatype BestMatch = BestMatch(candidate: string, score: real)

  /** The score of a candidate against `target`. */
  function Scorer(target: string): string -> real {
    c => Similarity(target, c)
  }

  /** The candidates scoring at least `threshold`. */
  function AtLeast(key: string -> real, threshold: real): string -> bool {
    c => key(c) >= threshold
  }

  /** The running-best loop of `findBestMatch` over any score. */
  function Best(candidates: seq<string>, key: string -> real, threshold: real): (r: Option<BestMatch>)
    ensures r.Some? ==> r.value.candidate in candidates && r.value.candidate != ""
    ensures r.Some? ==> r.value.score == key(r.value.candidate)
    ensures r.Some? ==> r.value.score >= threshold && r.value.score > 0.0
    ensures r.Some? ==> forall i :: 0 <= i < |candidates| && key(candidates[i]) >= threshold ==>
                          key(candidates[i]) <= r.value.score
    ensures (forall i :: 0 <= i < |candidates| && key(candidates[i]) >= threshold ==>
               key(candidates[i]) <= 0.0) ==> r.None?
    ensures r.None? && "" !in candidates ==>
              forall i :: 0 <= i < |candidates| && key(candidates[i]) >= threshold ==> key(candidates[i]) <= 0.0
  {
    match Seqs.Pick(candidates, key, AtLeast(key, threshold))
    case None => None
    case Some(k) =>
      if candidates[k] == "" then None
      else Some(BestMatch(candidates[k], key(candidates[k])))
  }

  /** `findBestMatch`: the first candidate of highest score among those
      scoring at least `threshold`, never one scoring 0 (the running best
      starts at 0), and no result when the winner is the empty string (it
      is falsy). */
  function FindBestMatch(target: string, candidates: seq<string>, threshold: real): (r: Option<BestMatch>)
    ensures r.Some? ==> r.value.candidate in candidates && r.value.candidate != ""
    ensures r.Some? ==> r.value.score == Similarity(target, r.value.candidate)
    ensures r.Some? ==> r.value.score >= threshold && r.value.score > 0.0
    ensures r.Some? ==> forall i :: 0 <= i < |candidates| && Similarity(target, candidates[i]) >= threshold ==>
                          Similarity(target, candidates[i]) <= r.value.score
    ensures (forall i :: 0 <= i < |candidates| && Similarity(target, candidates[i]) >= threshold ==>
               Similarity(target, candidates[i]) <= 0.0) ==> r.None?
    ensures r.None? && "" !in candidates ==>
              forall i :: 0 <= i < |candidates| && Similarity(target, candidates[i]) >= threshold ==>
                Similarity(target, candidates[i]) <= 0.0
  {
    Best(candidates, Scorer(target), threshold)
  }

  /** The winner is the first of the best: every earlier qualifying
      candidate scores strictly less. */
  lemma FindBestMatchFirst(target: string, candidates: seq<string>, threshold: real, k: nat)
    requires k < |candidates|
    requires FindBestMatch(target, candidates, threshold) == Some(BestMatch(candidates[k], Similarity(target, candidates[k])))
    requires forall j :: 0 <= j < k ==> candidates[j] != candidates[k]
    ensures forall j :: 0 <= j < k && Similarity(target, candidates[j]) >= threshold ==>
                 Similarity(target, candidates[j]) < Similarity(target, candidates[k])
  {
    BestFirst(candidates, Scorer(target), threshold, k);
  }

  lemma BestFirst(candidates: seq<string>, key: string -> real, threshold: real, k: nat)
    requires k < |candidates|
    requires Best(candidates, key, threshold) == Some(BestMatch(candidates[k], key(candidates[k])))
    requires forall j :: 0 <= j < k ==> candidates[j] != candidates[k]
    ensures forall j :: 0 <= j < k && key(candidates[j]) >= threshold ==> key(candidates[j]) < key(candidates[k])
  {
    var w := Seqs.Pick(candidates, key, AtLeast(key, threshold));
    assert w.Some? && candidates[w.value] == candidates[k];
  }

  /** An empty candidate that wins hides the match: a blank target scores
      1 against a leading "", which therefore wins, and is then discarded as
      falsy, so nothing is returned although a perfect match was there. */
  lemma EmptyWinnerIsNull(target: string, candidates: seq<string>, threshold: real)
    requires Normalize(target) == "" && threshold <= 1.0
    requires |candidates| > 0 && candidates[0] == ""
    ensures Similarity(target, candidates[0]) == 1.0
    ensures FindBestMatch(target, candidates, threshold) == None
  {
    assert Normalize("") == "";
    var ok := AtLeast(Scorer(target), threshold);
    var w := Seqs.Pick(candidates, Scorer(target), ok);
    assert ok(candidates[0]);
    if w.Some? && w.value > 0 {
      assert false;
    }
  }

  /** `keywords.some(k => itemKeywords.includes(k))`: the two names have a
      tag in common. */
  predicate SharesTag(a: string, b: string) {
    exists t :: t in Keywords.Detect(a) && t in Keywords.Detect(b)
  }

  /** Sharing a tag means both names match one category's pattern. */
  lemma SharesTagIff(a: string, b: string)
    ensures SharesTag(a, b) <==> exists t :: Keywords.HasTag(a, t) && Keywords.HasTag(b, t)
  {
    var da := Keywords.Detect(a);
    var db := Keywords.Detect(b);
    if exists t :: Keywords.HasTag(a, t) && Keywords.HasTag(b, t) {
      var t :| Keywords.HasTag(a, t) && Keywords.HasTag(b, t);
      assert t in da && t in db;
    }
  }

  /** The additive keyword boost of line 143: 0.1 for a shared tag. */
  function Bonus(ledger: string, name: string): real {
    if SharesTag(ledger, name) then 0.1 else 0.0
  }

  /** `finalScore`, the ranking key: the similarity plus the bonus, capped at
      1, so never below the similarity and never above 1. */
  function FinalScore(ledger: string, name: string): (r: real)
    ensures Similarity(ledger, name) <= r <= 1.0
    ensures !SharesTag(ledger, name) ==> r == Similarity(ledger, name)
  {
    Cap(Similarity(ledger, name) + Bonus(ledger, name))
  }

  /** An item's raw similarity reaches the threshold. */
  predicate Eligible<T>(ledger: string, nameOf: T -> string, threshold: real, item: T) {
    Similarity(ledger, nameOf(item)) >= threshold
  }

  /** Lines 155-163: the winning boosted score, scaled by 1.1 when the
      winner shares a tag with the ledger, capped at 1; never below the
      boosted score. */
  function Confidence(best: real, shared: bool): (r: real)
    requires 0.0 <= best <= 1.0
    ensures best <= r <= 1.0
    ensures !shared ==> r == best
  {
    Cap(if shared then best * 1.1 else best)
  }

  /** The ranking key of an item. */
  function RankKey<T>(ledger: string, nameOf: T -> string): T -> real {
    (x: T) => FinalScore(ledger, nameOf(x))
  }

  function EligibleIn<T>(ledger: string, nameOf: T -> string, threshold: real): T -> bool {
    (x: T) => Eligible(ledger, nameOf, threshold, x)
  }

  /** The index of the winning item: the first eligible item of highest
      positive boosted score. */
  function Winner<T>(ledger: string, items: seq<T>, nameOf: T -> string, threshold: real): (r: Option<nat>)
    ensures r.Some? ==> r.value < |items| && Eligible(ledger, nameOf, threshold, items[r.value])
    ensures r.Some? ==> forall i :: 0 <= i < |items| && Eligible(ledger, nameOf, threshold, items[i]) ==>
                          FinalScore(ledger, nameOf(items[i])) <= FinalScore(ledger, nameOf(items[r.value]))
    ensures r.Some? ==> forall j :: 0 <= j < r.value && Eligible(ledger, nameOf, threshold, items[j]) ==>
                          FinalScore(ledger, nameOf(items[j])) < FinalScore(ledger, nameOf(items[r.value]))
    ensures r.None? <==> forall i :: 0 <= i < |items| && Eligible(ledger, nameOf, threshold, items[i]) ==>
                           FinalScore(ledger, nameOf(items[i])) <= 0.0
  {
    var r := Seqs.Pick(items, RankKey(ledger, nameOf), EligibleIn(ledger, nameOf, threshold));
    if r.Some? then
      WinnerBest(ledger, items, nameOf, threshold, r.value);
      WinnerFirst(ledger, items, nameOf, threshold, r.value);
      r
    else
      WinnerNone(ledger, items, nameOf, threshold);
      r
  }

  /** The winner is eligible, scores above 0, and no eligible item scores
      more. */
  lemma WinnerBest<T>(ledger: string, items: seq<T>, nameOf: T -> string, threshold: real, k: nat)
    requires Seqs.Pick(items, RankKey(ledger, nameOf), EligibleIn(ledger, nameOf, threshold)) == Some(k)
    ensures k < |items| && Eligible(ledger, nameOf, threshold, items[k]) && FinalScore(ledger, nameOf(items[k])) > 0.0
    ensures forall i :: 0 <= i < |items| && Eligible(ledger, nameOf, threshold, items[i]) ==>
              FinalScore(ledger, nameOf(items[i])) <= FinalScore(ledger, nameOf(items[k]))
  {
    var key := RankKey(ledger, nameOf);
    var ok := EligibleIn(ledger, nameOf, threshold);
    assert ok(items[k]) && key(items[k]) > 0.0;
    forall i | 0 <= i < |items| && Eligible(ledger, nameOf, threshold, items[i])
      ensures FinalScore(ledger, nameOf(items[i])) <= FinalScore(ledger, nameOf(items[k]))
    {
      assert ok(items[i]);
      assert key(items[i]) <= key(items[k]);
    }
  }

  /** Without a winner, no eligible item scores above 0. */
  lemma WinnerNone<T>(ledger: string, items: seq<T>, nameOf: T -> string, threshold: real)
    requires Seqs.Pick(items, RankKey(ledger, nameOf), EligibleIn(ledger, nameOf, threshold)).None?
    ensures forall i :: 0 <= i < |items| && Eligible(ledger, nameOf, threshold, items[i]) ==>
              FinalScore(ledger, nameOf(items[i])) <= 0.0
  {
    var key := RankKey(ledger, nameOf);
    var ok := EligibleIn(ledger, nameOf, threshold);
    forall i | 0 <= i < |items| && Eligible(ledger, nameOf, threshold, items[i])
      ensures FinalScore(ledger, nameOf(items[i])) <= 0.0
    {
      assert ok(items[i]);
      assert key(items[i]) <= 0.0;
    }
  }

  /** Every eligible item before the winner scores strictly less. */
  lemma WinnerFirst<T>(ledger: string, items: seq<T>, nameOf: T -> string, threshold: real, k: nat)
    requires Seqs.Pick(items, RankKey(ledger, nameOf), EligibleIn(ledger, nameOf, threshold)) == Some(k)
    ensures k < |items|
    ensures forall j :: 0 <= j < k && Eligible(ledger, nameOf, threshold, items[j]) ==>
              FinalScore(ledger, nameOf(items[j])) < FinalScore(ledger, nameOf(items[k]))
  {
    var key := RankKey(ledger, nameOf);
    var ok := EligibleIn(ledger, nameOf, threshold);
    forall j | 0 <= j < k && Eligible(ledger, nameOf, threshold, items[j])
      ensures FinalScore(ledger, nameOf(items[j])) < FinalScore(ledger, nameOf(items[k]))
    {
      assert ok(items[j]);
      assert key(items[j]) < key(items[k]);
    }
  }

  datatype LedgerMatch<T> = LedgerMatch(item: T, score: real, confidence: real)

  /** `fuzzyMatchLedger`: among the items whose raw similarity reaches the
      threshold, the first one of highest boosted score (a boosted score of 0
      never wins); its raw similarity as `score`, and as `confidence` the
      boosted score, boosted again by a tenth on a shared tag and capped at
      1. */
  function FuzzyMatchLedger<T>(ledger: string, items: seq<T>, nameOf: T -> string, threshold: real)
    : (r: Option<LedgerMatch<T>>)
    ensures r.Some? ==> r.value.item in items && Eligible(ledger, nameOf, threshold, r.value.item)
    ensures r.Some? ==> r.value.score == Similarity(ledger, nameOf(r.value.item))
    ensures r.Some? ==> r.value.score <= r.value.confidence <= 1.0
    ensures r.Some? ==> FinalScore(ledger, nameOf(r.value.item)) <= r.value.confidence
    ensures r.Some? ==> forall i :: 0 <= i < |items| && Eligible(ledger, nameOf, threshold, items[i]) ==>
                          FinalScore(ledger, nameOf(items[i])) <= FinalScore(ledger, nameOf(r.value.item))
    ensures r.Some? ==> exists k :: 0 <= k < |items| && items[k] == r.value.item
                          && forall j :: 0 <= j < k && Eligible(ledger, nameOf, threshold, items[j]) ==>
                               FinalScore(ledger, nameOf(items[j])) < FinalScore(ledger, nameOf(r.value.item))
    ensures r.None? <==> forall i :: 0 <= i < |items| && Eligible(ledger, nameOf, threshold, items[i]) ==>
                           FinalScore(ledger, nameOf(items[i])) <= 0.0
  {
    match Winner(ledger, items, nameOf, threshold)
    case None => None
    case Some(k) =>
      var item := items[k];
      var best := FinalScore(ledger, nameOf(item));
      Some(LedgerMatch(item, Similarity(ledger, nameOf(item)), Confidence(best, SharesTag(ledger, nameOf(item)))))
  }

  /** With a positive threshold every eligible item has a positive boosted
      score, so there is a match exactly when some item is eligible. */
  lemma PositiveThresholdMatches<T>(ledger: string, items: seq<T>, nameOf: T -> string, threshold: real)
    requires threshold > 0.0
    ensures FuzzyMatchLedger(ledger, items, nameOf, threshold).None? <==>
            forall i :: 0 <= i < |items| ==> Similarity(ledger, nameOf(items[i])) < threshold
  {
  }

  /** Without a shared tag the confidence is the raw similarity. With one,
      the boost is applied twice: a tenth is added, then the capped sum is
      scaled by 1.1 and capped again. */
  lemma ConfidenceBoost<T>(ledger: string, items: seq<T>, nameOf: T -> string, threshold: real)
    requires FuzzyMatchLedger(ledger, items, nameOf, threshold).Some?
    ensures var m := FuzzyMatchLedger(ledger, items, nameOf, threshold).value;
      !SharesTag(ledger, nameOf(m.item)) ==> m.confidence == m.score
    ensures var m := FuzzyMatchLedger(ledger, items, nameOf, threshold).value;
      SharesTag(ledger, nameOf(m.item)) && m.score <= 0.8 ==> m.confidence == 1.1 * m.score + 0.11
  {
    var m := FuzzyMatchLedger(ledger, items, nameOf, threshold).value;
    var w := Winner(ledger, items, nameOf, threshold);
    assert m.item == items[w.value];
    var shared := SharesTag(ledger, nameOf(m.item));
    assert m.confidence == Confidence(FinalScore(ledger, nameOf(m.item)), shared);
    if shared && m.score <= 0.8 {
      DoubleBoost(m.score);
    }
  }

  /** A shared tag on a score of at most 0.8: neither cap bites. */
  lemma DoubleBoost(s: real)
    requires 0.0 <= s <= 0.8
    ensures Confidence(Cap(s + 0.1), true) == 1.1 * s + 0.11
  {
  }

  /** The normal form is a stretch of the lower-cased name, and what is
      cut off at either end is white space only. */
  lemma NormalizeFrame(s: string) returns (k: nat)
    ensures k + |Normalize(s)| <= |s| && Normalize(s) == Lower(s)[k..k + |Normalize(s)|]
    ensures forall i :: 0 <= i < k ==> IsSpace(s[i])
    ensures forall i :: k + |Normalize(s)| <= i < |s| ==> IsSpace(s[i])
  {
    k := TrimFrame(Lower(s));
    forall i | 0 <= i < k ensures IsSpace(s[i]) {
      LowerKeepsSpace(s[i]);
    }
    forall i | k + |Normalize(s)| <= i < |s| ensures IsSpace(s[i]) {
      LowerKeepsSpace(s[i]);
    }
  }

  /** The normal form holds no upper-case letter, and neither of its ends
      is white space. */
  lemma NormalizeShape(s: string)
    ensures var r := Normalize(s); forall i :: 0 <= i < |r| ==> !IsUpper(r[i])
    ensures var r := Normalize(s); |r| > 0 ==> !IsSpace(r[0]) && !IsSpace(r[|r| - 1])
  {
    var r := Normalize(s);
    var k := NormalizeFrame(s);
    forall i | 0 <= i < |r| ensures !IsUpper(r[i]) {
      assert r[i] == Lower(s)[k + i];
    }
  }

  /** The threshold both matchers fall back to when called without one. */
  const DefaultThreshold: real := 0.6

  /** `findBestMatch` called without a threshold: a result scores at least
      0.6, and there is none when no candidate does. */
  function FindBestMatchDefault(target: string, candidates: seq<string>): (r: Option<BestMatch>)
    ensures r.Some? ==> r.value.candidate in candidates && r.value.candidate != ""
    ensures r.Some? ==> r.value.score == Similarity(target, r.value.candidate) >= 0.6
    ensures (forall i :: 0 <= i < |candidates| ==> Similarity(target, candidates[i]) < 0.6) ==> r.None?
  {
    FindBestMatch(target, candidates, DefaultThreshold)
  }

  /** `fuzzyMatchLedger` called without a threshold: there is a match
      exactly when some item's raw similarity reaches 0.6. */
  function FuzzyMatchLedgerDefault<T>(ledger: string, items: seq<T>, nameOf: T -> string)
    : (r: Option<LedgerMatch<T>>)
    ensures r.Some? ==> r.value.item in items && r.value.score == Similarity(ledger, nameOf(r.value.item)) >= 0.6
    ensures r.None? <==> forall i :: 0 <= i < |items| ==> Similarity(ledger, nameOf(items[i])) < 0.6
  {
    PositiveThresholdMatches(ledger, items, nameOf, DefaultThreshold);
    FuzzyMatchLedger(ledger, items, nameOf, DefaultThreshold)
  }
}
