/**
 * The few pieces of Java platform semantics the model depends on: 32-bit int
 * wrap-around, String.hashCode and Long-style hashing, truncating integer
 * division, Long.toString, ASCII case folding (the model of
 * toLowerCase(Locale.ROOT) and equalsIgnoreCase), String.trim and startsWith.
 */
module JavaLang {

  const INT_MODULUS: int := 0x1_0000_0000
  const INT_MIN: int := -0x8000_0000
  const INT_MAX: int := 0x7FFF_FFFF
  const LONG_MODULUS: int := 0x1_0000_0000_0000_0000

  /** Reduction of a mathematical integer to the Java int with the same low 32 bits. */
  function ToInt32(x: int): (r: int)
    ensures INT_MIN <= r <= INT_MAX
    ensures (x - r) % INT_MODULUS == 0
    ensures INT_MIN <= x <= INT_MAX ==> r == x
  {
    var m := x % INT_MODULUS;
    if m > INT_MAX then m - INT_MODULUS else m
  }

  /** The UTF-16 code units of a character: itself below U+10000, otherwise its surrogate pair. */
  function Utf16(c: char): (us: seq<int>)
    ensures c as int < 0x10000 ==> us == [c as int]
    ensures c as int >= 0x10000 ==> |us| == 2 && 0xD800 <= us[0] < 0xDC00 <= us[1] < 0xE000
  {
    if c as int < 0x10000 then [c as int]
    else
      var v := c as int - 0x10000;
      [0xD800 + v / 0x400, 0xDC00 + v % 0x400]
  }

  /** One step of String.hashCode over a code unit: 31 * h + u in int arithmetic. */
  function HashUnit(h: int, u: int): int {
    ToInt32(31 * h + u)
  }

  /** String.hashCode: h = 31 * h + u over the UTF-16 code units of the string, in int arithmetic. */
  function StringHashCode(s: string): (h: int)
    ensures INT_MIN <= h <= INT_MAX
  {
    if s == [] then 0
    else
      var h := StringHashCode(s[..|s| - 1]);
      var us := Utf16(s[|s| - 1]);
      if |us| == 1 then HashUnit(h, us[0]) else HashUnit(HashUnit(h, us[0]), us[1])
  }

  /** A character outside the Basic Multilingual Plane is hashed as its two surrogates: U+1F30D is the pair
      0xD83C 0xDF0D. */
  lemma SupplementaryHash()
    ensures Utf16('\U{1F30D}') == [0xD83C, 0xDF0D]
    ensures StringHashCode("\U{1F30D}") == 31 * 0xD83C + 0xDF0D
  {
    assert "\U{1F30D}"[..0] == [];
  }

  /** One step of String.hashCode on a character of the Basic Multilingual Plane that stays within the int
      range. */
  lemma HashStep(s: string, c: char, h: int)
    requires c as int < 0x10000
    requires StringHashCode(s) == h && INT_MIN <= 31 * h + c as int <= INT_MAX
    ensures StringHashCode(s + [c]) == 31 * h + c as int
  {
    assert (s + [c])[..|s|] == s;
  }

  /** The hash of a two-character ASCII string. */
  lemma HashOfPair(c0: char, c1: char)
    requires c0 as int < 128 && c1 as int < 128
    ensures StringHashCode([c0, c1]) == 31 * c0 as int + c1 as int
  {
    var e: string := [];
    HashStep(e, c0, 0);
    HashStep(e + [c0], c1, c0 as int);
    assert e + [c0] + [c1] == [c0, c1];
  }

  /** The hash of a four-character ASCII string. */
  lemma HashOfQuad(c0: char, c1: char, c2: char, c3: char)
    requires c0 as int < 128 && c1 as int < 128 && c2 as int < 128 && c3 as int < 128
    ensures StringHashCode([c0, c1, c2, c3]) == 29791 * c0 as int + 961 * c1 as int + 31 * c2 as int + c3 as int
  {
    var h2 := 31 * c0 as int + c1 as int;
    var h3 := 31 * h2 + c2 as int;
    HashOfPair(c0, c1);
    HashStep([c0, c1], c2, h2);
    assert [c0, c1] + [c2] == [c0, c1, c2];
    HashStep([c0, c1, c2], c3, h3);
    assert [c0, c1, c2] + [c3] == [c0, c1, c2, c3];
  }

  /** (int) (v ^ (v >>> 32)) for a long v, which is how Duration and Instant hash their seconds. */
  function LongHashCode(v: int): (h: int)
    ensures INT_MIN <= h <= INT_MAX
  {
    var u := v % LONG_MODULUS;
    var hi := (u / INT_MODULUS) as bv32;
    var lo := (u % INT_MODULUS) as bv32;
    ToInt32((hi ^ lo) as int)
  }

  /** Java's `/` on integers: truncates toward zero (Dafny's `/` is Euclidean). */
  function JDiv(a: int, b: int): (q: int)
    requires b > 0
    ensures a >= 0 ==> q == a / b
    ensures a >= 0 ==> q >= 0
    ensures a <= 0 ==> q <= 0
  {
    if a >= 0 then a / b else -((-a) / b)
  }

  /** Java's `%` on integers: the remainder takes the sign of the dividend. */
  function JRem(a: int, b: int): (r: int)
    requires b > 0
    ensures a >= 0 ==> r == a % b
    ensures a == JDiv(a, b) * b + r
    ensures a >= 0 ==> 0 <= r < b
    ensures a <= 0 ==> -b < r <= 0
  {
    if a >= 0 then a % b else -((-a) % b)
  }

  predicate IsDigit(c: char) { '0' <= c <= '9' }

  predicate AllDigits(s: string) { forall i :: 0 <= i < |s| ==> IsDigit(s[i]) }

  function DigitChar(d: nat): (c: char)
    requires d < 10
    ensures IsDigit(c)
  {
    ['0', '1', '2', '3', '4', '5', '6', '7', '8', '9'][d]
  }

  function DigitValue(c: char): (d: nat)
    requires IsDigit(c)
    ensures d < 10
  {
    c as int - '0' as int
  }

  /** Decimal digits of a natural number, most significant first, without leading zeros. */
  function NatStr(n: nat): (s: string)
    ensures |s| > 0 && AllDigits(s)
    decreases n
  {
    if n < 10 then [DigitChar(n)] else NatStr(n / 10) + [DigitChar(n % 10)]
  }

  /** Long.toString (as used by `years + "y"`). */
  function LongToString(n: int): (s: string)
    ensures |s| > 0
  {
    if n < 0 then "-" + NatStr(-n) else NatStr(n)
  }

  /** The value of a string of decimal digits. */
  function DigitsValue(s: string): nat
    requires AllDigits(s)
  {
    if s == [] then 0 else 10 * DigitsValue(s[..|s| - 1]) + DigitValue(s[|s| - 1])
  }

  lemma {:induction false} DigitValueOfDigitChar(d: nat)
    requires d < 10
    ensures DigitValue(DigitChar(d)) == d
  {
    if d == 0 {} else if d == 1 {} else if d == 2 {} else if d == 3 {} else if d == 4 {}
    else if d == 5 {} else if d == 6 {} else if d == 7 {} else if d == 8 {} else {}
  }

  /** Reading back the decimal rendering of a number gives the number. */
  lemma {:induction false} DigitsValueOfNatStr(n: nat)
    ensures DigitsValue(NatStr(n)) == n
    decreases n
  {
    DigitValueOfDigitChar(n % 10);
    if n >= 10 {
      var s := NatStr(n);
      assert s[..|s| - 1] == NatStr(n / 10);
      DigitsValueOfNatStr(n / 10);
    }
  }

  function ToLowerChar(c: char): (r: char)
    ensures 'A' <= c <= 'Z' ==> 'a' <= r <= 'z'
    ensures !('A' <= c <= 'Z') ==> r == c
  {
    if 'A' <= c <= 'Z' then (c as int - 'A' as int + 'a' as int) as char else c
  }

  /** toLowerCase(Locale.ROOT), restricted to ASCII letters. */
  function ToLower(s: string): (r: string)
    ensures |r| == |s|
    ensures forall i :: 0 <= i < |s| ==> r[i] == ToLowerChar(s[i])
  {
    seq(|s|, i requires 0 <= i < |s| => ToLowerChar(s[i]))
  }

  /** equalsIgnoreCase, restricted to ASCII letters. */
  predicate EqualsIgnoreCase(a: string, b: string) {
    ToLower(a) == ToLower(b)
  }

  predicate StartsWith(s: string, prefix: string) {
    |prefix| <= |s| && s[..|prefix|] == prefix
  }

  /** The number of characters at the start of s whose code is at most U+0020. */
  function LeadingBlanks(s: string): (n: nat)
    ensures n <= |s|
    ensures forall k :: 0 <= k < n ==> s[k] <= ' '
    ensures n < |s| ==> s[n] > ' '
  {
    if s == [] || s[0] > ' ' then 0 else 1 + LeadingBlanks(s[1..])
  }

  /** The number of characters at the end of s whose code is at most U+0020. */
  function TrailingBlanks(s: string): (n: nat)
    ensures n <= |s|
    ensures forall k :: |s| - n <= k < |s| ==> s[k] <= ' '
    ensures n < |s| ==> s[|s| - 1 - n] > ' '
  {
    if s == [] || s[|s| - 1] > ' ' then 0 else 1 + TrailingBlanks(s[..|s| - 1])
  }

  /** String.trim: strips every leading and trailing character whose code is at most U+0020. */
  function Trim(s: string): (r: string)
    ensures |r| <= |s|
    ensures r != [] ==> r[0] > ' ' && r[|r| - 1] > ' '
    ensures forall c :: c in s && c > ' ' ==> c in r
  {
    var t := s[LeadingBlanks(s)..];
    t[..|t| - TrailingBlanks(t)]
  }
}
