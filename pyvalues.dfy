/**
 * The Python values that cross the boundaries of the modelled functions, and
 * the parts of Python's string semantics that the source relies on.
 */
module PyValues {

  /** A Python object, as far as the modelled code inspects it. */
  datatype PyValue =
    | PyInt(i: int)          // an `int`
    | PyBool(b: bool)        // `True` / `False`, a subclass of `int`
    | PyFloat(f: real)       // a finite `float`
    | PyStr(s: string)
    | PyNone
    | PyList(items: seq<PyValue>)
    | PyOther                // any other object (not callable, not an int)

  /** `isinstance(v, int)` (PyLong_Check): true for ints and bools. */
  predicate IsInt(v: PyValue) {
    v.PyInt? || v.PyBool?
  }

  /** The integer value of an int or bool. */
  function IntValue(v: PyValue): (r: int)
    requires IsInt(v)
    ensures v.PyBool? ==> (r == 1 <==> v.b) && (r == 0 <==> !v.b)
  {
    match v
    case PyInt(i) => i
    case PyBool(b) => if b then 1 else 0
  }

  /** `hash(v)` succeeds: lists are unhashable. */
  predicate IsHashable(v: PyValue) {
    !v.PyList?
  }

  /**
   * Python's `str.isspace` for a single character: the characters that
   * `str.split()` splits on and `str.strip()` removes.
   */
  predicate IsSpace(c: char) {
    var k := c as int;
    || (0x09 <= k <= 0x0d) || (0x1c <= k <= 0x20)  // \t \n \v \f \r, separators, space
    || k == 0x85 || k == 0xa0 || k == 0x1680
    || (0x2000 <= k <= 0x200a) || k == 0x2028 || k == 0x2029
    || k == 0x202f || k == 0x205f || k == 0x3000
  }

  /** `c.isalnum() and c.isupper()` for one character, on ASCII. */
  predicate IsUpperAlnum(c: char) {
    'A' <= c <= 'Z'
  }

  /** `str.isalpha()` for one character, on ASCII. */
  predicate IsAlpha(c: char) {
    ('A' <= c <= 'Z') || ('a' <= c <= 'z')
  }

  /** Decimal digits of a natural number, as `str(n)` prints them. */
  function NatToString(n: nat): (r: string)
    ensures |r| >= 1
    ensures forall i :: 0 <= i < |r| ==> '0' <= r[i] <= '9'
    decreases n
  {
    if n < 10 then [DigitChar(n)] else NatToString(n / 10) + [DigitChar(n % 10)]
  }

  function DigitChar(d: nat): (c: char)
    requires d < 10
    ensures '0' <= c <= '9'
  {
    ['0', '1', '2', '3', '4', '5', '6', '7', '8', '9'][d]
  }

  /** The value of a string of decimal digits. */
  function DecimalValue(s: string): nat
    requires forall i :: 0 <= i < |s| ==> '0' <= s[i] <= '9'
  {
    if s == [] then 0 else 10 * DecimalValue(s[..|s| - 1]) + (s[|s| - 1] as int - '0' as int)
  }

  /** `str(n)` prints `n` back: reading the digits gives `n`. */
  lemma {:induction false} NatToStringRoundTrip(n: nat)
    ensures DecimalValue(NatToString(n)) == n
  {
    if n >= 10 {
      var s := NatToString(n);
      assert s[..|s| - 1] == NatToString(n / 10);
      NatToStringRoundTrip(n / 10);
    }
  }

  /** `sep.join(parts)`. */
  function Join(sep: string, parts: seq<string>): string {
    if parts == [] then ""
    else if |parts| == 1 then parts[0]
    else parts[0] + sep + Join(sep, parts[1..])
  }

  /** `c * k` for a one-character string `c`: empty when `k <= 0`. */
  function Repeat(c: char, k: int): (r: string)
    ensures |r| == if k <= 0 then 0 else k
    ensures forall i :: 0 <= i < |r| ==> r[i] == c
    decreases k
  {
    if k <= 0 then [] else [c] + Repeat(c, k - 1)
  }

  /** Binary digits of a natural number, as `format(n, 'b')` prints them. */
  function BinaryDigits(n: nat): (r: string)
    ensures |r| >= 1
    ensures forall i :: 0 <= i < |r| ==> r[i] == '0' || r[i] == '1'
    ensures n == 0 <==> r == "0"
    ensures n > 0 ==> r[0] == '1'
    decreases n
  {
    if n < 2 then (if n == 0 then "0" else "1") else BinaryDigits(n / 2) + (if n % 2 == 0 then "0" else "1")
  }

  predicate IsBinary(s: string) {
    forall i :: 0 <= i < |s| ==> s[i] == '0' || s[i] == '1'
  }

  /** The value of a string of binary digits, most significant first. */
  function BinaryValue(s: string): nat
    requires IsBinary(s)
  {
    if s == [] then 0 else 2 * BinaryValue(s[..|s| - 1]) + (if s[|s| - 1] == '1' then 1 else 0)
  }

  /** Reading the binary digits of `n` gives `n`. */
  lemma {:induction false} BinaryDigitsRoundTrip(n: nat)
    ensures BinaryValue(BinaryDigits(n)) == n
    decreases n
  {
    if n >= 2 {
      var s := BinaryDigits(n);
      assert s[..|s| - 1] == BinaryDigits(n / 2);
      BinaryDigitsRoundTrip(n / 2);
    }
  }

  /** Leading zeros do not change the value of a binary string. */
  lemma {:induction false} LeadingZeros(k: int, s: string)
    requires IsBinary(s)
    ensures IsBinary(Repeat('0', k) + s)
    ensures BinaryValue(Repeat('0', k) + s) == BinaryValue(s)
    decreases |s|
  {
    var z := Repeat('0', k);
    if s == [] {
      assert z + s == z;
      ZerosValue(k);
    } else {
      var t := z + s;
      assert t[..|t| - 1] == z + s[..|s| - 1];
      LeadingZeros(k, s[..|s| - 1]);
    }
  }

  lemma {:induction false} ZerosValue(k: int)
    ensures IsBinary(Repeat('0', k)) && BinaryValue(Repeat('0', k)) == 0
    decreases k
  {
    if k > 0 {
      var z := Repeat('0', k);
      assert z[..|z| - 1] == Repeat('0', k - 1);
      ZerosValue(k - 1);
    }
  }

  /** `pat in s` for strings: `pat` occurs somewhere in `s`. */
  predicate Contains(s: string, pat: string) {
    exists i :: 0 <= i <= |s| - |pat| && OccursAt(s, pat, i)
  }

  predicate OccursAt(s: string, pat: string, i: int)
    requires 0 <= i <= |s| - |pat|
  {
    s[i..i + |pat|] == pat
  }
}
