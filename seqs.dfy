/**
 * Sequence helpers standing for the list operations the source uses:
 * `filter`, `findFirst`/`orElseThrow`, and the facts about duplicates and
 * subsequences that the model's properties are stated with.
 */
module Seqs {
  import opened Wrappers

  /** `Math.abs` on whole cents. */
  function Abs(x: int): nat { if x < 0 then -x else x }

  /** No element occurs twice. */
  predicate NoDuplicates<T(==)>(s: seq<T>)
  {
    forall a, b :: 0 <= a < b < |s| ==> s[a] != s[b]
  }

  /** `sub` is obtained from `s` by deleting elements, keeping their order. */
  predicate IsSubsequence<T(==)>(sub: seq<T>, s: seq<T>)
    decreases |s|
  {
    sub == [] ||
    (s != [] && ((sub[0] == s[0] && IsSubsequence(sub[1..], s[1..])) || IsSubsequence(sub, s[1..])))
  }

  /** `s.filter(p)` / `stream().filter(p).toList()`. */
  function Filter<T>(s: seq<T>, p: T -> bool): (r: seq<T>)
    ensures forall k :: 0 <= k < |r| ==> r[k] in s && p(r[k])
    ensures forall k {:trigger s[k] in r} :: 0 <= k < |s| && p(s[k]) ==> s[k] in r
  {
    if s == [] then []
    else
      var rest := Filter(s[1..], p);
      assert s == [s[0]] + s[1..];
      if p(s[0]) then [s[0]] + rest else rest
  }

  /** Where a kept element sits in the result. */
  lemma KeptAt<T>(s: seq<T>, p: T -> bool, j: nat) returns (k: nat)
    requires j < |s| && p(s[j])
    ensures k < |Filter(s, p)| && Filter(s, p)[k] == s[j]
  {
    assert s[j] in Filter(s, p);
    k :| k < |Filter(s, p)| && Filter(s, p)[k] == s[j];
  }

  /** Where an element of the result came from in the input. */
  lemma KeptFrom<T>(s: seq<T>, p: T -> bool, k: nat) returns (j: nat)
    requires k < |Filter(s, p)|
    ensures j < |s| && s[j] == Filter(s, p)[k] && p(s[j])
  {
    var r := Filter(s, p);
    assert r[k] in s;
    j :| j < |s| && s[j] == r[k];
  }

  /** What `filter` keeps is a subsequence of its input, so it takes no element more often. */
  lemma {:induction false} FilterSubsequence<T>(s: seq<T>, p: T -> bool)
    ensures IsSubsequence(Filter(s, p), s)
    ensures multiset(Filter(s, p)) <= multiset(s)
  {
    if s != [] {
      var rest := Filter(s[1..], p);
      FilterSubsequence(s[1..], p);
      assert s == [s[0]] + s[1..];
      if p(s[0]) {
        var r := [s[0]] + rest;
        assert r[1..] == rest;
      }
    }
  }

  /** A subsequence takes no element more often than the sequence it comes from. */
  lemma {:induction false} SubsequenceMultiset<T>(sub: seq<T>, s: seq<T>)
    requires IsSubsequence(sub, s)
    ensures multiset(sub) <= multiset(s)
    decreases |s|
  {
    if sub != [] {
      assert s == [s[0]] + s[1..];
      if IsSubsequence(sub, s[1..]) {
        SubsequenceMultiset(sub, s[1..]);
      } else {
        SubsequenceMultiset(sub[1..], s[1..]);
        assert sub == [sub[0]] + sub[1..];
      }
    }
  }

  /** A subsequence of a duplicate-free sequence is duplicate-free and draws its elements from it. */
  lemma SubsequenceNoDuplicates<T>(sub: seq<T>, s: seq<T>)
    requires IsSubsequence(sub, s) && NoDuplicates(s)
    ensures NoDuplicates(sub)
    ensures forall k :: 0 <= k < |sub| ==> sub[k] in s
  {
    SubsequenceMultiset(sub, s);
    NoDuplicatesMultiset(s);
    assert forall x :: multiset(sub)[x] <= multiset(s)[x];
    NoDuplicatesMultiset(sub);
    forall k | 0 <= k < |sub| ensures sub[k] in s {
      assert sub[k] in multiset(sub);
    }
  }

  /** Index of the first element that satisfies `p` (`findFirst`, `Optional.orElseThrow`). */
  function FirstIndex<T>(s: seq<T>, p: T -> bool): (r: Option<nat>)
    ensures r.None? <==> forall k :: 0 <= k < |s| ==> !p(s[k])
    ensures r.Some? ==> r.value < |s| && p(s[r.value]) &&
                        forall k :: 0 <= k < r.value ==> !p(s[k])
  {
    if s == [] then None
    else if p(s[0]) then Some(0)
    else
      match FirstIndex(s[1..], p)
      case None => None
      case Some(k) => Some(k + 1)
  }

  /** The first element that satisfies `p`, if any. */
  function FindFirst<T>(s: seq<T>, p: T -> bool): (r: Option<T>)
    ensures r.None? <==> forall k :: 0 <= k < |s| ==> !p(s[k])
    ensures r.Some? ==> r.value in s && p(r.value)
  {
    match FirstIndex(s, p)
    case None => None
    case Some(k) => Some(s[k])
  }

  /** A list without duplicates has every element exactly once in its multiset. */
  lemma {:induction false} NoDuplicatesMultiset<T>(s: seq<T>)
    ensures NoDuplicates(s) <==> forall x :: multiset(s)[x] <= 1
  {
    if NoDuplicates(s) {
      if s != [] {
        NoDuplicatesMultiset(s[1..]);
        assert s == [s[0]] + s[1..];
        assert s[0] !in s[1..];
      }
    } else {
      var a, b :| 0 <= a < b < |s| && s[a] == s[b];
      assert s == s[..b] + s[b..];
      assert s[a] in s[..b] && s[b] in s[b..];
      assert multiset(s)[s[a]] == multiset(s[..b])[s[a]] + multiset(s[b..])[s[a]];
    }
  }

  /** Filtering keeps a list duplicate-free. */
  lemma FilterNoDuplicates<T>(s: seq<T>, p: T -> bool)
    requires NoDuplicates(s)
    ensures NoDuplicates(Filter(s, p))
  {
    NoDuplicatesMultiset(s);
    FilterSubsequence(s, p);
    var r := Filter(s, p);
    assert forall x :: multiset(r)[x] <= multiset(s)[x];
    NoDuplicatesMultiset(r);
  }

  /** No two elements share a key. */
  predicate KeysDistinct<T, K(==)>(s: seq<T>, key: T -> K)
  {
    forall a, b :: 0 <= a < b < |s| ==> key(s[a]) != key(s[b])
  }

  /** Filtering a list whose elements have distinct keys keeps the keys distinct. */
  lemma {:induction false} FilterKeepsKeysDistinct<T, K>(s: seq<T>, p: T -> bool, key: T -> K)
    requires KeysDistinct(s, key)
    ensures KeysDistinct(Filter(s, p), key)
  {
    if s != [] {
      var tail := s[1..];
      var rest := Filter(tail, p);
      TailKeysDistinct(s, key);
      FilterKeepsKeysDistinct(tail, p, key);
      if p(s[0]) {
        forall k | 0 <= k < |rest| ensures key(rest[k]) != key(s[0]) {
          var m :| 0 <= m < |tail| && tail[m] == rest[k];
          assert s[m + 1] == rest[k];
        }
        ConsKeysDistinct(s[0], rest, key);
      }
    }
  }

  lemma TailKeysDistinct<T, K>(s: seq<T>, key: T -> K)
    requires s != [] && KeysDistinct(s, key)
    ensures KeysDistinct(s[1..], key)
  {
    var tail := s[1..];
    forall a, b | 0 <= a < b < |tail| ensures key(tail[a]) != key(tail[b]) {
      assert tail[a] == s[a + 1] && tail[b] == s[b + 1];
    }
  }

  lemma ConsKeysDistinct<T, K>(x: T, s: seq<T>, key: T -> K)
    requires KeysDistinct(s, key)
    requires forall k :: 0 <= k < |s| ==> key(s[k]) != key(x)
    ensures KeysDistinct([x] + s, key)
  {
    var r := [x] + s;
    forall a, b | 0 <= a < b < |r| ensures key(r[a]) != key(r[b]) {
      assert r[b] == s[b - 1];
      if a > 0 {
        assert r[a] == s[a - 1];
      }
    }
  }

  /** Filtering distributes over concatenation. */
  lemma {:induction false} FilterAppend<T>(a: seq<T>, b: seq<T>, p: T -> bool)
    ensures Filter(a + b, p) == Filter(a, p) + Filter(b, p)
  {
    if a == [] {
      assert a + b == b;
    } else {
      var ab := a + b;
      assert ab[0] == a[0] && ab[1..] == a[1..] + b;
      FilterAppend(a[1..], b, p);
      var restA, restB := Filter(a[1..], p), Filter(b, p);
      if p(a[0]) {
        calc {
          Filter(ab, p);
          [a[0]] + Filter(a[1..] + b, p);
          [a[0]] + (restA + restB);
          ([a[0]] + restA) + restB;
        }
      } else {
        assert Filter(ab, p) == Filter(a[1..] + b, p);
      }
    }
  }

  /** Filtering keeps a list whose every element passes, and empties one whose none does. */
  lemma {:induction false} FilterAllOrNone<T>(s: seq<T>, p: T -> bool)
    ensures (forall k :: 0 <= k < |s| ==> p(s[k])) ==> Filter(s, p) == s
    ensures (forall k :: 0 <= k < |s| ==> !p(s[k])) ==> Filter(s, p) == []
  {
    if s != [] {
      FilterAllOrNone(s[1..], p);
      assert forall k :: 0 <= k < |s[1..]| ==> s[1..][k] == s[k + 1];
      assert s == [s[0]] + s[1..];
    }
  }

  /** Filtering by a weaker test first changes nothing. */
  lemma {:induction false} FilterFilter<T>(s: seq<T>, p: T -> bool, q: T -> bool)
    requires forall x :: q(x) ==> p(x)
    ensures Filter(Filter(s, p), q) == Filter(s, q)
  {
    if s != [] {
      FilterFilter(s[1..], p, q);
      if p(s[0]) {
        var r := [s[0]] + Filter(s[1..], p);
        assert r[0] == s[0] && r[1..] == Filter(s[1..], p);
      }
    }
  }

  /** Two filters may be applied in either order. */
  lemma {:induction false} FilterCommute<T>(s: seq<T>, p: T -> bool, q: T -> bool)
    ensures Filter(Filter(s, p), q) == Filter(Filter(s, q), p)
  {
    if s != [] {
      FilterCommute(s[1..], p, q);
      var x, rest := s[0], s[1..];
      var rp, rq := Filter(rest, p), Filter(rest, q);
      if p(x) {
        assert ([x] + rp)[0] == x && ([x] + rp)[1..] == rp;
      }
      if q(x) {
        assert ([x] + rq)[0] == x && ([x] + rq)[1..] == rq;
      }
    }
  }
}
