/**
 * Deduplication by an integer key (a record id), keeping the first occurrence of every key in
 * first-seen order. Both merges of the membership layer (organizations by
 * id, membership rows by user id) are instances of it.
 */
module Dedup {

  /** The key of every element, in order. */
  function KeysOf<T>(s: seq<T>, key: T -> int): (ks: seq<int>)
    ensures |ks| == |s| && forall k :: 0 <= k < |s| ==> ks[k] == key(s[k])
  {
    seq(|s|, k requires 0 <= k < |s| => key(s[k]))
  }

  /** No two elements share a key. */
  predicate DistinctKeys<T>(s: seq<T>, key: T -> int)
  {
    forall a, b :: 0 <= a < b < |s| ==> key(s[a]) != key(s[b])
  }

  /** Element j is the first one carrying its key. */
  predicate IsFirst<T>(s: seq<T>, key: T -> int, j: int)
    requires 0 <= j < |s|
  {
    forall k :: 0 <= k < j ==> key(s[k]) != key(s[j])
  }

  /** The subsequence of first occurrences: the reference for every dedup loop. */
  function FirstOccurrences<T>(s: seq<T>, key: T -> int): seq<T>
    decreases |s|
  {
    if s == [] then []
    else
      FirstOccurrences(s[..|s| - 1], key) + (if IsFirst(s, key, |s| - 1) then [s[|s| - 1]] else [])
  }

  /** Deduplication keeps exactly the keys of its input. */
  lemma {:induction false} FirstOccurrencesKeys<T>(s: seq<T>, key: T -> int)
    ensures forall x :: x in KeysOf(FirstOccurrences(s, key), key) <==> x in KeysOf(s, key)
    decreases |s|
  {
    if s != [] {
      var p := s[..|s| - 1];
      FirstOccurrencesKeys(p, key);
      var last := s[|s| - 1];
      assert KeysOf(s, key) == KeysOf(p, key) + [key(last)];
      var fp := FirstOccurrences(p, key);
      if IsFirst(s, key, |s| - 1) {
        assert KeysOf(fp + [last], key) == KeysOf(fp, key) + [key(last)];
      } else {
        var k :| 0 <= k < |s| - 1 && key(s[k]) == key(last);
        assert key(last) == KeysOf(p, key)[k];
        assert FirstOccurrences(s, key) == fp;
        forall x ensures x in KeysOf(fp, key) <==> x in KeysOf(s, key) {
          assert x in KeysOf(s, key) <==> x in KeysOf(p, key) || x == key(last);
        }
      }
    }
  }

  /** The element x is new exactly when its key is not among the keys kept so far. */
  lemma FirstOccurrencesAppend<T>(s: seq<T>, x: T, key: T -> int)
    ensures FirstOccurrences(s + [x], key)
            == FirstOccurrences(s, key) + (if key(x) in KeysOf(FirstOccurrences(s, key), key) then [] else [x])
  {
    var t := s + [x];
    assert t[..|t| - 1] == s;
    FirstOccurrencesKeys(s, key);
    if !IsFirst(t, key, |s|) {
      var k :| 0 <= k < |s| && key(t[k]) == key(x);
      assert KeysOf(s, key)[k] == key(x);
      assert key(x) in KeysOf(s, key);
      assert key(x) in KeysOf(FirstOccurrences(s, key), key);
      assert FirstOccurrences(t, key) == FirstOccurrences(s, key) + [];
    } else {
      forall k | 0 <= k < |s| ensures KeysOf(s, key)[k] != key(x) {
        assert t[k] == s[k];
      }
      assert key(x) !in KeysOf(s, key);
    }
  }

  /** Deduplication leaves no two elements with the same key. */
  lemma {:induction false} FirstOccurrencesDistinct<T>(s: seq<T>, key: T -> int)
    ensures DistinctKeys(FirstOccurrences(s, key), key)
    decreases |s|
  {
    if s != [] {
      var p := s[..|s| - 1];
      assert s == p + [s[|s| - 1]];
      FirstOccurrencesDistinct(p, key);
      FirstOccurrencesAppend(p, s[|s| - 1], key);
      var fp := FirstOccurrences(p, key);
      var last := s[|s| - 1];
      if key(last) !in KeysOf(fp, key) {
        forall a | 0 <= a < |fp| ensures key(fp[a]) != key(last) {
          assert KeysOf(fp, key)[a] == key(fp[a]);
        }
      }
    }
  }

  /** An input without repeated keys is left as it is. */
  lemma {:induction false} FirstOccurrencesOfDistinct<T>(s: seq<T>, key: T -> int)
    requires DistinctKeys(s, key)
    ensures FirstOccurrences(s, key) == s
    decreases |s|
  {
    if s != [] {
      var p := s[..|s| - 1];
      FirstOccurrencesOfDistinct(p, key);
      assert IsFirst(s, key, |s| - 1);
    }
  }

  /** Deduplicating twice is deduplicating once. */
  lemma FirstOccurrencesIdempotent<T>(s: seq<T>, key: T -> int)
    ensures FirstOccurrences(FirstOccurrences(s, key), key) == FirstOccurrences(s, key)
  {
    FirstOccurrencesDistinct(s, key);
    FirstOccurrencesOfDistinct(FirstOccurrences(s, key), key);
  }

  /**
   * The output is the subsequence of the first occurrences: the positions idx
   * it is taken from increase strictly, each is a first occurrence, and every
   * first occurrence is among them.
   */
  lemma {:induction false} FirstOccurrencesPositions<T>(s: seq<T>, key: T -> int) returns (idx: seq<nat>)
    ensures |idx| == |FirstOccurrences(s, key)|
    ensures forall k :: 0 <= k < |idx| ==> idx[k] < |s| && IsFirst(s, key, idx[k]) && FirstOccurrences(s, key)[k] == s[idx[k]]
    ensures forall a, b :: 0 <= a < b < |idx| ==> idx[a] < idx[b]
    ensures forall j :: 0 <= j < |s| && IsFirst(s, key, j) ==> j in idx
    decreases |s|
  {
    if s == [] {
      idx := [];
    } else {
      var n := |s| - 1;
      var p := s[..n];
      var pidx := FirstOccurrencesPositions(p, key);
      var fp := FirstOccurrences(p, key);
      forall j | 0 <= j < n
        ensures IsFirst(p, key, j) <==> IsFirst(s, key, j)
      {
        assert forall k :: 0 <= k <= j ==> p[k] == s[k];
      }
      var tail := if IsFirst(s, key, n) then [n] else [];
      assert FirstOccurrences(s, key) == fp + (if IsFirst(s, key, n) then [s[n]] else []);
      idx := pidx + tail;
      forall k | 0 <= k < |idx|
        ensures idx[k] < |s| && IsFirst(s, key, idx[k]) && FirstOccurrences(s, key)[k] == s[idx[k]]
      {
        if k < |pidx| {
          assert fp[k] == p[pidx[k]] == s[pidx[k]];
        }
      }
      forall j | 0 <= j < |s| && IsFirst(s, key, j)
        ensures j in idx
      {
        if j < n {
          assert j in pidx;
        }
      }
    }
  }

  /** Position of the first occurrence of x, as a list lookup does it. */
  method IndexOf(ks: seq<int>, x: int) returns (i: nat)
    requires x in ks
    ensures i < |ks| && ks[i] == x
    ensures forall j :: 0 <= j < i ==> ks[j] != x
  {
    i := 0;
    while ks[i] != x
      invariant i < |ks|
      invariant x in ks[i..]
      invariant forall j :: 0 <= j < i ==> ks[j] != x
      decreases |ks| - i
    {
      i := i + 1;
    }
  }
}
