/** The three list idioms the source uses over and over: `Array.find`
    (first element satisfying a test), `Array.filter` (order-preserving
    selection), and the "keep the first strictly better one" loop that
    `findBestMatch` and `fuzzyMatchLedger` in utils/fuzzyMatch.ts run with a
    running best score that starts at 0. */
module Seqs {
  import opened Wrappers

  /** Index of the first element satisfying `p`, as `Array.find` /
      `Array.findIndex` pick it. */
  function Find<T>(s: seq<T>, p: T -> bool): (r: Option<nat>)
    ensures r.Some? ==> r.value < |s| && p(s[r.value])
    ensures r.Some? ==> forall j :: 0 <= j < r.value ==> !p(s[j])
    ensures r.None? <==> forall j :: 0 <= j < |s| ==> !p(s[j])
  {
    if |s| == 0 then None
    else if p(s[0]) then Some(0)
    else
      match Find(s[1..], p)
      case None => None
      case Some(k) => Some(k + 1)
  }

  /** `Array.filter`: the elements satisfying `p`, in their original order. */
  function Filter<T>(s: seq<T>, p: T -> bool): (r: seq<T>)
    ensures |r| <= |s|
    ensures forall i :: 0 <= i < |r| ==> r[i] in s && p(r[i])
    ensures forall i :: 0 <= i < |s| && p(s[i]) ==> s[i] in r
  {
    if |s| == 0 then []
    else if p(s[0]) then [s[0]] + Filter(s[1..], p)
    else Filter(s[1..], p)
  }

  /** `Array.map`. */
  function Map<T, U>(s: seq<T>, f: T -> U): (r: seq<U>)
    ensures |r| == |s|
    ensures forall i :: 0 <= i < |s| ==> r[i] == f(s[i])
  {
    seq(|s|, i requires 0 <= i < |s| => f(s[i]))
  }

  lemma MapThree<T, U>(a: T, b: T, c: T, f: T -> U)
    ensures Map([a, b, c], f) == [f(a), f(b), f(c)]
  {
  }

  /** Filtering distributes over concatenation: the filter keeps relative
      order. */
  lemma {:induction false} FilterConcat<T>(a: seq<T>, b: seq<T>, p: T -> bool)
    ensures Filter(a + b, p) == Filter(a, p) + Filter(b, p)
  {
    if |a| > 0 {
      assert (a + b)[1..] == a[1..] + b;
      FilterConcat(a[1..], b, p);
    } else {
      assert a + b == b;
    }
  }

  /** Cutting a sequence anywhere cuts its filtered form there. */
  lemma FilterSplit<T>(s: seq<T>, p: T -> bool)
    ensures forall k :: 0 <= k <= |s| ==> Filter(s, p) == Filter(s[..k], p) + Filter(s[k..], p)
  {
    forall k | 0 <= k <= |s| ensures Filter(s, p) == Filter(s[..k], p) + Filter(s[k..], p) {
      assert s[..k] + s[k..] == s;
      FilterConcat(s[..k], s[k..], p);
    }
  }

  /** The head of a filtered sequence is the first passing element. */
  lemma {:induction false} FilterFirst<T>(s: seq<T>, p: T -> bool)
    requires |Filter(s, p)| > 0
    ensures exists k :: 0 <= k < |s| && Filter(s, p)[0] == s[k] && forall j :: 0 <= j < k ==> !p(s[j])
  {
    if !p(s[0]) {
      FilterFirst(s[1..], p);
      var k :| 0 <= k < |s[1..]| && Filter(s[1..], p)[0] == s[1..][k]
               && forall j :: 0 <= j < k ==> !p(s[1..][j]);
      forall j | 0 <= j < k + 1 ensures !p(s[j]) {
        if j > 0 {
          assert s[j] == s[1..][j - 1];
        }
      }
    }
  }

  /** A filter that rejects nothing is the identity. */
  lemma {:induction false} FilterAll<T>(s: seq<T>, p: T -> bool)
    requires forall j :: 0 <= j < |s| ==> p(s[j])
    ensures Filter(s, p) == s
  {
    if |s| > 0 {
      FilterAll(s[1..], p);
    }
  }

  /** A filter that accepts nothing gives nothing. */
  lemma FilterNone<T>(s: seq<T>, p: T -> bool)
    requires forall j :: 0 <= j < |s| ==> !p(s[j])
    ensures Filter(s, p) == []
  {
  }

  /** Rejected elements in front make no difference. */
  lemma {:induction false} FilterDropPrefix<T>(s: seq<T>, k: nat, p: T -> bool)
    requires k <= |s|
    requires forall i :: 0 <= i < k ==> !p(s[i])
    ensures Filter(s[k..], p) == Filter(s, p)
  {
    if k > 0 {
      FilterDropPrefix(s[1..], k - 1, p);
      assert s[1..][k - 1..] == s[k..];
    }
  }

  /** Rejected elements at the end make no difference. */
  lemma {:induction false} FilterDropSuffix<T>(s: seq<T>, j: nat, p: T -> bool)
    requires j <= |s|
    requires forall i :: j <= i < |s| ==> !p(s[i])
    ensures Filter(s[..j], p) == Filter(s, p)
  {
    if j == |s| {
      assert s[..j] == s;
    } else if j == 0 {
      FilterNone(s, p);
    } else {
      FilterDropSuffix(s[1..], j - 1, p);
      assert s[..j][1..] == s[1..][..j - 1];
    }
  }

  /** Rejected elements at either end make no difference: filtering a
      slice framed by them is filtering the whole. */
  lemma FilterFrame<T>(s: seq<T>, k: nat, j: nat, p: T -> bool)
    requires k <= j <= |s|
    requires forall i :: 0 <= i < k ==> !p(s[i])
    requires forall i :: j <= i < |s| ==> !p(s[i])
    ensures Filter(s[k..j], p) == Filter(s, p)
  {
    FilterDropPrefix(s, k, p);
    FilterDropTail(s, k, j, p);
  }

  /** The suffix half of `FilterFrame`, on the slice from `k`. */
  lemma FilterDropTail<T>(s: seq<T>, k: nat, j: nat, p: T -> bool)
    requires k <= j <= |s|
    requires forall i :: j <= i < |s| ==> !p(s[i])
    ensures Filter(s[k..j], p) == Filter(s[k..], p)
  {
    var t := s[k..];
    forall i | j - k <= i < |t| ensures !p(t[i]) {
      assert t[i] == s[k + i];
    }
    FilterDropSuffix(t, j - k, p);
    assert t[..j - k] == s[k..j];
  }

  /** Filters whose tests agree on the elements give the same result. */
  lemma {:induction false} FilterCongruent<T>(s: seq<T>, p: T -> bool, q: T -> bool)
    requires forall j :: 0 <= j < |s| ==> p(s[j]) == q(s[j])
    ensures Filter(s, p) == Filter(s, q)
  {
    if |s| > 0 {
      FilterCongruent(s[1..], p, q);
    }
  }

  /** A filter and its complement split the sequence: their lengths add up
      and, together, they hold exactly the original elements. */
  lemma {:induction false} FilterPartition<T>(s: seq<T>, p: T -> bool, q: T -> bool)
    requires forall j :: 0 <= j < |s| ==> q(s[j]) == !p(s[j])
    ensures |Filter(s, p)| + |Filter(s, q)| == |s|
    ensures multiset(Filter(s, p)) + multiset(Filter(s, q)) == multiset(s)
  {
    if |s| > 0 {
      FilterPartition(s[1..], p, q);
      assert multiset(s) == multiset{s[0]} + multiset(s[1..]) by {
        assert s == [s[0]] + s[1..];
      }
      if p(s[0]) {
        assert Filter(s, p) == [s[0]] + Filter(s[1..], p);
        assert Filter(s, q) == Filter(s[1..], q);
      } else {
        assert Filter(s, p) == Filter(s[1..], p);
        assert Filter(s, q) == [s[0]] + Filter(s[1..], q);
      }
    }
  }

  /** The keys strictly increase along the sequence. */
  predicate Increasing<T>(s: seq<T>, key: T -> int) {
    forall i, j :: 0 <= i < j < |s| ==> key(s[i]) < key(s[j])
  }

  /** Filtering keeps strictly increasing keys strictly increasing. */
  lemma {:induction false} FilterIncreasing<T>(s: seq<T>, p: T -> bool, key: T -> int)
    requires Increasing(s, key)
    ensures Increasing(Filter(s, p), key)
  {
    if |s| > 0 {
      var rest := Filter(s[1..], p);
      IncreasingTail(s, key);
      FilterIncreasing(s[1..], p, key);
      if p(s[0]) {
        forall j | 0 <= j < |rest| ensures key(s[0]) < key(rest[j]) {
          var k :| 0 <= k < |s[1..]| && s[1..][k] == rest[j];
          assert s[k + 1] == rest[j];
        }
        IncreasingCons(s[0], rest, key);
      }
    }
  }

  lemma IncreasingTail<T>(s: seq<T>, key: T -> int)
    requires |s| > 0 && Increasing(s, key)
    ensures Increasing(s[1..], key)
  {
    forall i, j | 0 <= i < j < |s[1..]| ensures key(s[1..][i]) < key(s[1..][j]) {
      assert s[1..][i] == s[i + 1] && s[1..][j] == s[j + 1];
    }
  }

  lemma IncreasingCons<T>(x: T, rest: seq<T>, key: T -> int)
    requires Increasing(rest, key)
    requires forall j :: 0 <= j < |rest| ==> key(x) < key(rest[j])
    ensures Increasing([x] + rest, key)
  {
    var r := [x] + rest;
    forall i, j | 0 <= i < j < |r| ensures key(r[i]) < key(r[j]) {
      assert r[j] == rest[j - 1];
      if i > 0 {
        assert r[i] == rest[i - 1];
      }
    }
  }

  /** The index a running-best loop ends on: walking left to right with a
      best key that starts at 0, an element replaces the current best when
      it is `ok` and its key is strictly greater. So the winner is the first
      `ok` element of largest key, and no element whose key is at most 0 is
      ever chosen. */
  function Pick<T>(s: seq<T>, key: T -> real, ok: T -> bool): (r: Option<nat>)
    ensures r.Some? ==> r.value < |s| && ok(s[r.value]) && key(s[r.value]) > 0.0
    ensures r.Some? ==> forall j :: 0 <= j < |s| && ok(s[j]) ==> key(s[j]) <= key(s[r.value])
    ensures r.Some? ==> forall j :: 0 <= j < r.value && ok(s[j]) ==> key(s[j]) < key(s[r.value])
    ensures r.None? <==> forall j :: 0 <= j < |s| && ok(s[j]) ==> key(s[j]) <= 0.0
  {
    if |s| == 0 then None
    else
      var prev := Pick(s[..|s| - 1], key, ok);
      var best := if prev.Some? then key(s[prev.value]) else 0.0;
      var last := s[|s| - 1];
      if ok(last) && key(last) > best then Some(|s| - 1) else prev
  }
}
