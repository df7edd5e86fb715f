/** Bit manipulation on non-negative integers: `get_parity`, `get_nth_gray_code`, `get_bit_string`. */
module BitTools {
  import opened Wrappers
  import opened PyValues

  /** The number of 1 bits of `x`. */
  function Popcount(x: nat): nat
    decreases x
  {
    if x == 0 then 0 else x % 2 + Popcount(x / 2)
  }

  /** `a & b` on non-negative integers. */
  function BitAnd(a: nat, b: nat): nat
    decreases a
  {
    if a == 0 || b == 0 then 0 else 2 * BitAnd(a / 2, b / 2) + (if a % 2 == 1 && b % 2 == 1 then 1 else 0)
  }

  /** `a ^ b` on non-negative integers. */
  function BitXor(a: nat, b: nat): nat
    decreases a + b
  {
    if a == 0 && b == 0 then 0 else 2 * BitXor(a / 2, b / 2) + (if a % 2 != b % 2 then 1 else 0)
  }

  lemma {:induction false} BitAndSelf(a: nat)
    ensures BitAnd(a, a) == a
    decreases a
  {
    if a != 0 {
      BitAndSelf(a / 2);
    }
  }

  /** `x & (x - 1)` clears the lowest 1 bit of a positive `x`. */
  lemma {:induction false} ClearLowestBit(x: nat)
    requires x > 0
    ensures BitAnd(x, x - 1) < x
    ensures Popcount(BitAnd(x, x - 1)) == Popcount(x) - 1
    decreases x
  {
    if x == 1 {
      assert BitAnd(1, 0) == 0;
    } else if x % 2 == 1 {
      BitAndSelf(x / 2);
      assert (x - 1) / 2 == x / 2;
      assert BitAnd(x, x - 1) == 2 * BitAnd(x / 2, x / 2);
      assert Popcount(x - 1) == Popcount(x / 2) by {
        assert (x - 1) % 2 == 0;
      }
    } else {
      var h := x / 2;
      ClearLowestBit(h);
      assert (x - 1) / 2 == h - 1 && (x - 1) % 2 == 1;
      assert BitAnd(x, x - 1) == 2 * BitAnd(h, h - 1);
      assert Popcount(2 * BitAnd(h, h - 1)) == Popcount(BitAnd(h, h - 1)) by {
        var y := 2 * BitAnd(h, h - 1);
        if y != 0 {
          assert y / 2 == BitAnd(h, h - 1) && y % 2 == 0;
        }
      }
    }
  }

  /**
   * `get_parity(x)`: despite its name, the number of 1 bits of `x`; each
   * iteration of the loop clears the lowest 1 bit.
   */
  method GetParity(x: nat) returns (c: nat)
    ensures c == Popcount(x)
  {
    c := 0;
    var y := x;
    while y != 0
      invariant c + Popcount(y) == Popcount(x)
      decreases y
    {
      ClearLowestBit(y);
      c := c + 1;
      y := BitAnd(y, y - 1);
    }
  }

  /** `get_nth_gray_code(n)`: `n ^ (n >> 1)`. */
  function GrayCode(n: nat): nat {
    BitXor(n, n / 2)
  }

  /** The code of `2m + b` is the code of `m` with one more low bit: whether `b` differs from `m`'s lowest bit. */
  lemma GrayOfDouble(m: nat, b: nat)
    requires b < 2
    ensures GrayCode(2 * m + b) == 2 * GrayCode(m) + (if b != m % 2 then 1 else 0)
  {
    assert (2 * m + b) / 2 == m;
    XorOfDoubles(m, b, m / 2, m % 2);
  }

  lemma XorOfDoubles(a: nat, x: nat, b: nat, y: nat)
    requires x < 2 && y < 2
    ensures BitXor(2 * a + x, 2 * b + y) == 2 * BitXor(a, b) + (if x != y then 1 else 0)
  {
    var p, q := 2 * a + x, 2 * b + y;
    assert p / 2 == a && p % 2 == x && q / 2 == b && q % 2 == y;
    if p == 0 && q == 0 {
      assert BitXor(0, 0) == 0;
    }
  }

  lemma PopcountOfDouble(a: nat, x: nat)
    requires x < 2
    ensures Popcount(2 * a + x) == Popcount(a) + x
  {
    var p := 2 * a + x;
    if p != 0 {
      assert p / 2 == a && p % 2 == x;
    }
  }

  /** The Gray code of 0 is 0. */
  lemma GrayCodeOfZero()
    ensures GrayCode(0) == 0
  {
  }

  /** Consecutive Gray codes differ in exactly one bit. */
  lemma {:induction false} GrayCodesDifferInOneBit(n: nat)
    ensures Popcount(BitXor(GrayCode(n), GrayCode(n + 1))) == 1
    decreases n
  {
    if n % 2 == 0 {
      GrayOfEven(n);
      OnlyLowBitDiffers(GrayCode(n / 2), (n / 2) % 2);
    } else {
      GrayOfOdd(n);
      GrayCodesDifferInOneBit(n / 2);
      SameLowBit(GrayCode(n / 2), GrayCode(n / 2 + 1), 1 - (n / 2) % 2);
    }
  }

  lemma GrayOfEven(n: nat)
    requires n % 2 == 0
    ensures GrayCode(n) == 2 * GrayCode(n / 2) + (n / 2) % 2
    ensures GrayCode(n + 1) == 2 * GrayCode(n / 2) + (1 - (n / 2) % 2)
  {
    var m := n / 2;
    assert n == 2 * m + 0 && n + 1 == 2 * m + 1;
    GrayOfDouble(m, 0);
    GrayOfDouble(m, 1);
  }

  lemma GrayOfOdd(n: nat)
    requires n % 2 == 1
    ensures GrayCode(n) == 2 * GrayCode(n / 2) + (1 - (n / 2) % 2)
    ensures GrayCode(n + 1) == 2 * GrayCode(n / 2 + 1) + (1 - (n / 2) % 2)
  {
    var m := n / 2;
    assert n == 2 * m + 1 && n + 1 == 2 * (m + 1) + 0;
    GrayOfOddHalf(m);
  }

  lemma GrayOfOddHalf(m: nat)
    ensures GrayCode(2 * m + 1) == 2 * GrayCode(m) + (1 - m % 2)
    ensures GrayCode(2 * (m + 1) + 0) == 2 * GrayCode(m + 1) + (1 - m % 2)
  {
    GrayOfDouble(m, 1);
    GrayOfDouble(m + 1, 0);
    assert (m + 1) % 2 == 1 - m % 2;
  }

  lemma OnlyLowBitDiffers(g: nat, b: nat)
    requires b < 2
    ensures Popcount(BitXor(2 * g + b, 2 * g + (1 - b))) == 1
  {
    XorOfDoubles(g, b, g, 1 - b);
    XorSelf(g);
    PopcountOfDouble(0, 1);
  }

  lemma SameLowBit(g: nat, h: nat, b: nat)
    requires b < 2
    ensures Popcount(BitXor(2 * g + b, 2 * h + b)) == Popcount(BitXor(g, h))
  {
    XorOfDoubles(g, b, h, b);
    PopcountOfDouble(BitXor(g, h), 0);
  }

  lemma {:induction false} XorSelf(a: nat)
    ensures BitXor(a, a) == 0
    decreases a
  {
    if a != 0 {
      XorSelf(a / 2);
    }
  }

  /**
   * `get_bit_string(n, num_chars)`, that is `'{:0<num_chars>b}'.format(n)`:
   * the binary digits zero-filled to `num_chars` characters, counting a
   * minus sign among them.
   */
  function GetBitString(n: int, numChars: Option<nat>): string {
    var width := if numChars.Some? then numChars.value else 0;
    if n >= 0 then ZeroFill(BinaryDigits(n), width)
    else "-" + ZeroFill(BinaryDigits(-n), width - 1)
  }

  /** `s` with enough `'0'` in front to be at least `width` long. */
  function ZeroFill(s: string, width: int): string {
    Repeat('0', width - |s|) + s
  }

  /** Zero-filling a binary string keeps it binary and keeps its value; it grows to `width` when shorter. */
  lemma ZeroFillFacts(s: string, width: int)
    requires IsBinary(s)
    ensures IsBinary(ZeroFill(s, width)) && BinaryValue(ZeroFill(s, width)) == BinaryValue(s)
    ensures |ZeroFill(s, width)| == if width > |s| then width else |s|
  {
    LeadingZeros(width - |s|, s);
  }

  /** For `n >= 0` the bit string is binary, as long as requested or as the digits, and reads back as `n`. */
  lemma BitStringOfNatural(n: nat, numChars: Option<nat>)
    ensures var r := GetBitString(n, numChars);
            IsBinary(r) && BinaryValue(r) == n &&
            |r| == (if numChars.Some? && numChars.value > |BinaryDigits(n)| then numChars.value else |BinaryDigits(n)|)
  {
    var width := if numChars.Some? then numChars.value else 0;
    assert GetBitString(n, numChars) == ZeroFill(BinaryDigits(n), width);
    BinaryDigitsRoundTrip(n);
    ZeroFillFacts(BinaryDigits(n), width);
  }

  /**
   * For `n < 0` the bit string is a minus sign followed by the zero-filled
   * binary digits of `-n`; the sign counts toward `num_chars`.
   */
  lemma BitStringOfNegative(n: int, numChars: Option<nat>)
    requires n < 0
    ensures var r := GetBitString(n, numChars);
            var w := if numChars.Some? then numChars.value else 0;
            |r| > 1 && r[0] == '-' && IsBinary(r[1..]) && BinaryValue(r[1..]) == -n &&
            |r| == (if w > |BinaryDigits(-n)| + 1 then w else |BinaryDigits(-n)| + 1)
  {
    var width := if numChars.Some? then numChars.value else 0;
    var bits := BinaryDigits(-n);
    var digits := ZeroFill(bits, width - 1);
    assert GetBitString(n, numChars) == "-" + digits;
    assert ("-" + digits)[1..] == digits;
    BinaryDigitsRoundTrip(-n);
    ZeroFillFacts(bits, width - 1);
    assert |digits| == if width - 1 > |bits| then width - 1 else |bits|;
    assert |"-" + digits| == 1 + |digits|;
  }

  /** Without `num_chars` there is no padding: the plain binary digits, so `get_bit_string(0)` is `"0"`. */
  lemma BitStringUnpadded(n: nat)
    ensures GetBitString(n, None) == BinaryDigits(n)
    ensures GetBitString(0, None) == "0"
  {
    assert Repeat('0', 0 - |BinaryDigits(n)|) == [];
    assert Repeat('0', 0 - |BinaryDigits(0)|) == [];
  }
}
