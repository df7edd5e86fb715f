/** Facts about sequences without repeated elements. */
module Seqs {

  /** No element occurs twice. */
  predicate Distinct<T(==)>(s: seq<T>) {
    forall i, j :: 0 <= i < j < |s| ==> s[i] != s[j]
  }

  /** The concatenation of two repetition-free sequences with no common element has no repetition. */
  lemma DistinctConcat<T>(a: seq<T>, b: seq<T>)
    requires Distinct(a) && Distinct(b)
    requires forall i, j :: 0 <= i < |a| && 0 <= j < |b| ==> a[i] != b[j]
    ensures Distinct(a + b)
  {
    var s := a + b;
    forall i, j | 0 <= i < j < |s|
      ensures s[i] != s[j]
    {
      if j >= |a| && i < |a| {
        assert s[i] == a[i] && s[j] == b[j - |a|];
      } else if i >= |a| {
        assert s[i] == b[i - |a|] && s[j] == b[j - |a|];
      }
    }
  }

  /** A repetition-free sequence has as many elements as its set. */
  lemma {:induction false} DistinctCard<T>(s: seq<T>)
    requires Distinct(s)
    ensures |set x | x in s| == |s|
  {
    if s != [] {
      var t := s[..|s| - 1];
      assert Distinct(t);
      DistinctCard(t);
      var last := s[|s| - 1];
      assert (set x | x in s) == (set x | x in t) + {last};
      assert last !in t;
    }
  }

  /** The position of the first occurrence of `x` in `s`. */
  function FirstIndex<T(==)>(s: seq<T>, x: T): (i: nat)
    requires x in s
    ensures i < |s| && s[i] == x
    ensures forall k :: 0 <= k < i ==> s[k] != x
  {
    if s[0] == x then 0
    else
      assert x in s[1..];
      1 + FirstIndex(s[1..], x)
  }

  /** An element of a prefix first occurs in the whole sequence where it first occurs in the prefix. */
  lemma FirstIndexOfPrefix<T>(s: seq<T>, n: nat, x: T)
    requires n <= |s| && x in s[..n]
    ensures x in s && FirstIndex(s, x) == FirstIndex(s[..n], x)
  {
    var i := FirstIndex(s[..n], x);
    assert s[i] == x;
    assert forall k :: 0 <= k < i ==> s[k] == s[..n][k];
  }

  /** `s` back to front: `reversed(s)`. */
  function Reversed<T>(s: seq<T>): (r: seq<T>)
    ensures |r| == |s|
    ensures forall i :: 0 <= i < |s| ==> r[i] == s[|s| - 1 - i]
  {
    if s == [] then [] else [s[|s| - 1]] + Reversed(s[..|s| - 1])
  }

  lemma {:induction false} ReversedMultiset<T>(s: seq<T>)
    ensures multiset(Reversed(s)) == multiset(s)
  {
    if s != [] {
      ReversedMultiset(s[..|s| - 1]);
      assert s == s[..|s| - 1] + [s[|s| - 1]];
    }
  }

  /**
   * A dict display `{k0: v0, k1: v1, ...}` given as its keys and values in
   * order: the entries are inserted one after the other, later ones winning.
   */
  function DictOf<K(==), V>(ks: seq<K>, vs: seq<V>): (d: map<K, V>)
    requires |ks| == |vs|
    ensures d.Keys == set k | k in ks
  {
    if ks == [] then map[]
    else DictOf(ks[..|ks| - 1], vs[..|vs| - 1])[ks[|ks| - 1] := vs[|vs| - 1]]
  }

  /** A key inserted last in a dict display keeps the value given with it, when no key repeats. */
  lemma {:induction false} DictOfValue<K, V>(ks: seq<K>, vs: seq<V>, i: nat)
    requires |ks| == |vs| && Distinct(ks) && i < |ks|
    ensures DictOf(ks, vs)[ks[i]] == vs[i]
  {
    if i < |ks| - 1 {
      var ks', vs' := ks[..|ks| - 1], vs[..|vs| - 1];
      assert ks'[i] == ks[i] && vs'[i] == vs[i];
      assert Distinct(ks');
      DictOfValue(ks', vs', i);
      assert ks[i] != ks[|ks| - 1];
    }
  }

  /** `d.update(e)` on dict displays is the display of the concatenated entries. */
  lemma {:induction false} DictOfAppend<K, V>(ks1: seq<K>, vs1: seq<V>, ks2: seq<K>, vs2: seq<V>)
    requires |ks1| == |vs1| && |ks2| == |vs2|
    ensures DictOf(ks1 + ks2, vs1 + vs2) == DictOf(ks1, vs1) + DictOf(ks2, vs2)
    decreases |ks2|
  {
    if ks2 == [] {
      assert ks1 + ks2 == ks1 && vs1 + vs2 == vs1;
    } else {
      var n := |ks2| - 1;
      assert (ks1 + ks2)[..|ks1 + ks2| - 1] == ks1 + ks2[..n];
      assert (vs1 + vs2)[..|vs1 + vs2| - 1] == vs1 + vs2[..n];
      DictOfAppend(ks1, vs1, ks2[..n], vs2[..n]);
    }
  }

}
