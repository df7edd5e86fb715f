/** `dec_to_bool_list`: an integer as a list of binary digits. */
module ResultAnalysis {
  import opened Wrappers
  import opened PyValues

  /** `bin(num)[2:]`: for a negative `num` the slice keeps the `b` of `-0b...`. */
  function BinText(num: int): string {
    if num >= 0 then BinaryDigits(num) else "b" + BinaryDigits(-num)
  }

  /** `c == '1'` for every character. */
  function DigitsAsBools(s: string): (r: seq<bool>)
    ensures |r| == |s| && forall i :: 0 <= i < |s| ==> (r[i] <==> s[i] == '1')
  {
    seq(|s|, i requires 0 <= i < |s| => s[i] == '1')
  }

  /**
   * `dec_to_bool_list(num, tot_chars)`: the digits of `bin(num)`, left-filled
   * with `'0'` up to `tot_chars` characters, each mapped to `c == '1'`.
   */
  function DecToBoolList(num: int, totChars: Option<int>): seq<bool> {
    var result := BinText(num);
    var filled := if totChars.Some? then Repeat('0', totChars.value - |result|) + result else result;
    DigitsAsBools(filled)
  }

  /** The value of a list of booleans read as binary digits, most significant first. */
  function BoolsValue(bs: seq<bool>): nat {
    if bs == [] then 0 else 2 * BoolsValue(bs[..|bs| - 1]) + (if bs[|bs| - 1] then 1 else 0)
  }

  lemma {:induction false} BoolsValueOfDigits(s: string)
    requires IsBinary(s)
    ensures BoolsValue(DigitsAsBools(s)) == BinaryValue(s)
  {
    if s != [] {
      var t := s[..|s| - 1];
      assert DigitsAsBools(s)[..|s| - 1] == DigitsAsBools(t);
      BoolsValueOfDigits(t);
    }
  }

  /**
   * For `num >= 0` the list reads back as `num`; it has exactly `tot_chars`
   * entries when that exceeds the digit count, the padding being `False`,
   * and is never truncated.
   */
  lemma DecToBoolListOfNatural(num: nat, totChars: Option<int>)
    ensures var r := DecToBoolList(num, totChars);
            var digits := |BinaryDigits(num)|;
            var width := if totChars.Some? && totChars.value > digits then totChars.value else digits;
            BoolsValue(r) == num && |r| == width &&
            (forall i :: 0 <= i < width - digits ==> !r[i]) &&
            (num > 0 ==> r[width - digits])
  {
    var d := BinaryDigits(num);
    var k := if totChars.Some? then totChars.value - |d| else 0;
    assert DecToBoolList(num, totChars) == DigitsAsBools(Repeat('0', k) + d) by {
      if totChars.None? {
        assert Repeat('0', k) + d == d;
      }
    }
    FilledDigits(d, k);
    BinaryDigitsRoundTrip(num);
  }

  /** The booleans of binary digits `d` left-filled with `k` zeros. */
  lemma FilledDigits(d: string, k: int)
    requires IsBinary(d) && d != []
    ensures var r := DigitsAsBools(Repeat('0', k) + d);
            var z := if k <= 0 then 0 else k;
            BoolsValue(r) == BinaryValue(d) && |r| == z + |d| &&
            (forall i :: 0 <= i < z ==> !r[i]) && (r[z] <==> d[0] == '1')
  {
    var f := Repeat('0', k) + d;
    LeadingZeros(k, d);
    BoolsValueOfDigits(f);
    assert f[|Repeat('0', k)|] == d[0];
  }

  /** `dec_to_bool_list(0)` is `[False]`. */
  lemma DecToBoolListOfZero()
    ensures DecToBoolList(0, None) == [false]
  {
  }
}
