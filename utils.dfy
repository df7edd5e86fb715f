/** The string and list helpers `without_spaces` and `matching_indices`. */
module Utils {
  import opened PyValues

  /** The characters of `s` that are not whitespace, in their order. */
  function NonSpace(s: string): string {
    if s == [] then [] else (if IsSpace(s[0]) then [] else [s[0]]) + NonSpace(s[1..])
  }

  /** The end of the run of non-whitespace characters that starts at `i`. */
  function RunEnd(s: string, i: nat): (j: nat)
    requires i <= |s|
    ensures i <= j <= |s|
    ensures forall k :: i <= k < j ==> !IsSpace(s[k])
    ensures j < |s| ==> IsSpace(s[j])
    decreases |s| - i
  {
    if i == |s| || IsSpace(s[i]) then i else RunEnd(s, i + 1)
  }

  /** `s.split()`: the maximal runs of non-whitespace characters, left to right. */
  function Split(s: string): (words: seq<string>)
    ensures forall k :: 0 <= k < |words| ==> words[k] != [] && forall c :: c in words[k] ==> !IsSpace(c)
    decreases |s|
  {
    if s == [] then []
    else if IsSpace(s[0]) then Split(s[1..])
    else
      var j := RunEnd(s, 0);
      [s[..j]] + Split(s[j..])
  }

  /** `without_spaces(s)`, that is `''.join(s.split())`: every non-whitespace character, in order. */
  function WithoutSpaces(s: string): (r: string)
    ensures r == NonSpace(s)
  {
    WithoutSpacesIsNonSpace(s);
    Join("", Split(s))
  }

  lemma {:induction false} WithoutSpacesIsNonSpace(s: string)
    ensures Join("", Split(s)) == NonSpace(s)
    decreases |s|
  {
    if s == [] {
    } else if IsSpace(s[0]) {
      WithoutSpacesIsNonSpace(s[1..]);
    } else {
      var j := RunEnd(s, 0);
      WithoutSpacesIsNonSpace(s[j..]);
      assert Split(s) == [s[..j]] + Split(s[j..]);
      JoinEmptyCons(s[..j], Split(s[j..]));
      assert s == s[..j] + s[j..];
      NonSpaceConcat(s[..j], s[j..]);
      NonSpaceOfSpaceless(s[..j]);
    }
  }

  lemma JoinEmptyCons(w: string, rest: seq<string>)
    ensures Join("", [w] + rest) == w + Join("", rest)
  {
    if rest == [] {
      assert w + "" == w;
    } else {
      assert ([w] + rest)[1..] == rest;
      assert w + "" + Join("", rest) == w + Join("", rest);
    }
  }

  /** Whitespace is removed piecewise: the other characters keep their order. */
  lemma {:induction false} NonSpaceConcat(a: string, b: string)
    ensures NonSpace(a + b) == NonSpace(a) + NonSpace(b)
  {
    if a == [] {
      assert a + b == b;
    } else {
      assert (a + b)[0] == a[0] && (a + b)[1..] == a[1..] + b;
      NonSpaceConcat(a[1..], b);
    }
  }

  /** A string without whitespace is left as it is. */
  lemma {:induction false} NonSpaceOfSpaceless(s: string)
    requires forall c :: c in s ==> !IsSpace(c)
    ensures NonSpace(s) == s
  {
    if s != [] {
      assert s[0] in s;
      assert forall c :: c in s[1..] ==> c in s;
      NonSpaceOfSpaceless(s[1..]);
    }
  }

  /** No whitespace is left. */
  lemma {:induction false} NonSpaceHasNoSpace(s: string)
    ensures forall c :: c in NonSpace(s) ==> !IsSpace(c)
  {
    if s != [] {
      NonSpaceHasNoSpace(s[1..]);
    }
  }

  /** `without_spaces` is idempotent. */
  lemma WithoutSpacesIdempotent(s: string)
    ensures WithoutSpaces(WithoutSpaces(s)) == WithoutSpaces(s)
  {
    NonSpaceHasNoSpace(s);
    NonSpaceOfSpaceless(NonSpace(s));
  }

  /**
   * `matching_indices(l, v)`: the positions holding `v`, in increasing order
   * (`==` is the element type's equality).
   */
  function MatchingIndices<T(==)>(l: seq<T>, v: T): (r: seq<nat>)
    ensures forall k :: 0 <= k < |r| ==> r[k] < |l| && l[r[k]] == v
    ensures forall i :: 0 <= i < |l| && l[i] == v ==> i in r
    ensures forall a, b :: 0 <= a < b < |r| ==> r[a] < r[b]
  {
    if l == [] then []
    else
      var rest := MatchingIndices(l[..|l| - 1], v);
      rest + (if l[|l| - 1] == v then [|l| - 1] else [])
  }

  /** There are as many positions as occurrences of `v`. */
  lemma {:induction false} MatchingIndicesCount<T>(l: seq<T>, v: T)
    ensures |MatchingIndices(l, v)| == multiset(l)[v]
  {
    if l != [] {
      MatchingIndicesCount(l[..|l| - 1], v);
      assert l == l[..|l| - 1] + [l[|l| - 1]];
    }
  }
}
