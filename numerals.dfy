/** Decimal parsing of unsigned integers as Rust's `str::parse::<u32>` and
    `str::parse::<u64>` do it: an optional leading `+`, then one or more ASCII
    digits (leading zeros allowed), and a value that fits the type. */
module Numerals {
  import opened Optional

  const U32_MODULUS: int := 0x1_0000_0000
  const U64_MODULUS: int := 0x1_0000_0000_0000_0000

  type U32 = x: int | 0 <= x < U32_MODULUS
  type U64 = x: int | 0 <= x < U64_MODULUS

  predicate IsDigit(c: char) {
    '0' <= c <= '9'
  }

  predicate AllDigits(s: string) {
    forall i :: 0 <= i < |s| ==> IsDigit(s[i])
  }

  function DigitValue(c: char): (d: nat)
    requires IsDigit(c)
    ensures d < 10
  {
    (c as int) - ('0' as int)
  }

  function DigitChar(d: nat): (c: char)
    requires d < 10
    ensures IsDigit(c) && DigitValue(c) == d
  {
    (('0' as int) + d) as char
  }

  /** The value of a digit string, most significant digit first; a string
      that starts with a digit other than `0` has a positive value. */
  function DigitsValue(s: string): (v: nat)
    requires AllDigits(s)
    ensures |s| > 0 && s[0] != '0' ==> v > 0
  {
    if |s| == 0 then 0 else DigitsValue(s[..|s| - 1]) * 10 + DigitValue(s[|s| - 1])
  }

  /** The digits after an optional leading `+`. */
  function Unsigned(s: string): string {
    if |s| > 0 && s[0] == '+' then s[1..] else s
  }

  /** Parsing into an unsigned type whose values are below `bound`: the empty
      string, a sign alone, a `-`, any other non-digit, and an overflowing
      value are all errors. */
  function ParseUnsigned(s: string, bound: nat): (r: Option<nat>)
    ensures r.Some? ==> r.value < bound
    ensures |s| == 0 || s == "+" ==> r.None?
    ensures (exists i :: 0 <= i < |s| && s[i] == '-') ==> r.None?
    ensures r.Some? ==> forall i :: 0 < i < |s| ==> IsDigit(s[i])
  {
    var d := Unsigned(s);
    if |d| == 0 || !AllDigits(d) then None
    else if DigitsValue(d) < bound then Some(DigitsValue(d))
    else None
  }

  function ParseU32(s: string): Option<U32>
  {
    match ParseUnsigned(s, U32_MODULUS)
    case None => None
    case Some(v) => Some(v)
  }

  function ParseU64(s: string): Option<U64>
  {
    match ParseUnsigned(s, U64_MODULUS)
    case None => None
    case Some(v) => Some(v)
  }

  /** The shortest decimal rendering of a natural number. */
  function Show(n: nat): (s: string)
    ensures |s| > 0 && AllDigits(s)
    ensures s[0] == '0' ==> n == 0
  {
    if n < 10 then [DigitChar(n)] else Show(n / 10) + [DigitChar(n % 10)]
  }

  /** Reading back a rendering gives the number rendered. */
  lemma {:induction false} ShowValue(n: nat)
    ensures DigitsValue(Show(n)) == n
  {
    if n >= 10 {
      var s := Show(n);
      assert s[..|s| - 1] == Show(n / 10);
      ShowValue(n / 10);
    }
  }

  /** Parsing the rendering of an in-range number, with or without a leading
      `+`, gives that number back; an out-of-range one is refused. */
  lemma ParseShow(n: nat, bound: nat)
    ensures n < bound ==> ParseUnsigned(Show(n), bound) == Some(n)
    ensures n < bound ==> ParseUnsigned("+" + Show(n), bound) == Some(n)
    ensures n >= bound ==> ParseUnsigned(Show(n), bound) == None
  {
    ShowValue(n);
    assert Unsigned("+" + Show(n)) == Show(n);
  }

  lemma ParseShowU32(n: U32)
    ensures ParseU32(Show(n)) == Some(n)
  {
    ParseShow(n, U32_MODULUS);
  }

  lemma ParseShowU64(n: U64)
    ensures ParseU64(Show(n)) == Some(n)
  {
    ParseShow(n, U64_MODULUS);
  }

  /** `k` zero digits. */
  function Zeros(k: nat): (z: string)
    ensures |z| == k && AllDigits(z)
    ensures forall i :: 0 <= i < k ==> z[i] == '0'
  {
    seq(k, _ => '0')
  }

  /** A leading zero does not change the value read. */
  lemma {:induction false} LeadingZeroValue(s: string)
    requires AllDigits(s)
    ensures AllDigits("0" + s) && DigitsValue("0" + s) == DigitsValue(s)
  {
    if |s| > 0 {
      var t := "0" + s;
      assert t[..|t| - 1] == "0" + s[..|s| - 1];
      LeadingZeroValue(s[..|s| - 1]);
    }
  }

  /** Nor do any number of leading zeros. */
  lemma {:induction false} LeadingZerosValue(k: nat, s: string)
    requires AllDigits(s)
    ensures AllDigits(Zeros(k) + s) && DigitsValue(Zeros(k) + s) == DigitsValue(s)
  {
    if k == 0 {
      assert Zeros(k) + s == s;
    } else {
      LeadingZerosValue(k - 1, s);
      assert Zeros(k) + s == "0" + (Zeros(k - 1) + s);
      LeadingZeroValue(Zeros(k - 1) + s);
    }
  }

  /** A non-empty digit string parses as its value when that fits. */
  lemma DigitsParse(d: string, bound: nat)
    requires |d| > 0 && AllDigits(d) && DigitsValue(d) < bound
    ensures ParseUnsigned(d, bound) == Some(DigitsValue(d))
    ensures ParseUnsigned("+" + d, bound) == Some(DigitsValue(d))
  {
    assert IsDigit(d[0]);
    assert Unsigned(d) == d;
    assert Unsigned("+" + d) == d;
  }

  /** So `"007"` parses like `"7"`, with or without a leading `+`. */
  lemma LeadingZerosAccepted(k: nat, n: nat, bound: nat)
    requires n < bound
    ensures ParseUnsigned(Zeros(k) + Show(n), bound) == Some(n)
    ensures ParseUnsigned("+" + Zeros(k) + Show(n), bound) == Some(n)
  {
    var d := Zeros(k) + Show(n);
    ShowValue(n);
    LeadingZerosValue(k, Show(n));
    DigitsParse(d, bound);
    AppendAssociative("+", Zeros(k), Show(n));
  }

  /** A digit string without a leading zero, or a single digit, is the
      rendering of its value. */
  lemma {:induction false} CanonicalIsShown(d: string)
    requires |d| > 0 && AllDigits(d) && (d[0] == '0' ==> |d| == 1)
    ensures Show(DigitsValue(d)) == d
    decreases |d|
  {
    var v := DigitsValue(d);
    if |d| == 1 {
      assert d == [DigitChar(DigitValue(d[0]))];
    } else {
      var front := d[..|d| - 1];
      var last := DigitValue(d[|d| - 1]);
      CanonicalIsShown(front);
      var m := DigitsValue(front);
      assert m != 0;
      assert v == m * 10 + last;
      assert v / 10 == m && v % 10 == last;
      assert [DigitChar(last)] == [d[|d| - 1]];
      assert d == front + [d[|d| - 1]];
    }
  }

  /** Every non-empty digit string is some leading zeros and then the
      rendering of its value. */
  lemma {:induction false} DigitsAreZerosAndShow(d: string) returns (k: nat)
    requires |d| > 0 && AllDigits(d)
    ensures d == Zeros(k) + Show(DigitsValue(d))
    decreases |d|
  {
    if d[0] == '0' && |d| > 1 {
      var t := d[1..];
      assert d == "0" + t;
      LeadingZeroValue(t);
      var j := DigitsAreZerosAndShow(t);
      k := j + 1;
      assert Zeros(k) + Show(DigitsValue(d)) == "0" + (Zeros(j) + Show(DigitsValue(t)));
    } else {
      CanonicalIsShown(d);
      k := 0;
      assert Zeros(0) + Show(DigitsValue(d)) == Show(DigitsValue(d));
    }
  }

  /** `s` spells `v`: an optional `+`, some zeros, then the rendering of `v`. */
  predicate Spells(s: string, sign: string, k: nat, v: nat) {
    (sign == "" || sign == "+") && s == sign + Zeros(k) + Show(v)
  }

  /** What a parse accepts spells the value it reads. */
  lemma ParsedIsSpelled(s: string, bound: nat) returns (sign: string, k: nat)
    requires ParseUnsigned(s, bound).Some?
    ensures Spells(s, sign, k, ParseUnsigned(s, bound).value)
  {
    var d := Unsigned(s);
    assert |d| > 0 && AllDigits(d);
    var v := DigitsValue(d);
    assert ParseUnsigned(s, bound).value == v;
    k := DigitsAreZerosAndShow(d);
    sign := if |s| > 0 && s[0] == '+' then "+" else "";
    assert s == sign + d;
    AppendAssociative(sign, Zeros(k), Show(v));
  }

  /** Concatenation is associative. */
  lemma AppendAssociative<T>(a: seq<T>, b: seq<T>, c: seq<T>)
    ensures (a + b) + c == a + (b + c)
  {
  }

  /** Every spelling of an in-range value parses as that value. */
  lemma SpelledParses(s: string, sign: string, k: nat, v: nat, bound: nat)
    requires Spells(s, sign, k, v) && v < bound
    ensures ParseUnsigned(s, bound) == Some(v)
  {
    LeadingZerosAccepted(k, v, bound);
    if sign == "" {
      assert s == Zeros(k) + Show(v);
    }
  }

  /** The strings a parse accepts are exactly the spellings of the in-range
      values, and each one reads as the value it spells. */
  lemma ParseSpelled(s: string, bound: nat, v: nat)
    ensures ParseUnsigned(s, bound) == Some(v) <==>
      v < bound && exists sign, k :: Spells(s, sign, k, v)
  {
    if ParseUnsigned(s, bound) == Some(v) {
      var sign, k := ParsedIsSpelled(s, bound);
    }
    if v < bound && exists sign, k :: Spells(s, sign, k, v) {
      var sign, k :| Spells(s, sign, k, v);
      SpelledParses(s, sign, k, v, bound);
    }
  }

  /** `str::parse::<u32>` accepts exactly the spellings of the values below 2^32. */
  lemma ParseU32Spelled(s: string, v: nat)
    ensures ParseU32(s).Some? && ParseU32(s).value == v <==>
      v < U32_MODULUS && exists sign, k :: Spells(s, sign, k, v)
  {
    ParseSpelled(s, U32_MODULUS, v);
  }

  /** `str::parse::<u64>` accepts exactly the spellings of the values below 2^64. */
  lemma ParseU64Spelled(s: string, v: nat)
    ensures ParseU64(s).Some? && ParseU64(s).value == v <==>
      v < U64_MODULUS && exists sign, k :: Spells(s, sign, k, v)
  {
    ParseSpelled(s, U64_MODULUS, v);
  }
}
