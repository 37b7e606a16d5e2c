/** Go's 64-bit `int` and the decimal conversions of `strconv` that the core
    uses: Atoi (for path, query and CSV parameters) and Itoa (for "%d"). */
module Numbers {
  import opened Wrappers

  const MinInt64: int := -0x8000_0000_0000_0000
  const MaxInt64: int := 0x7FFF_FFFF_FFFF_FFFF

  predicate InInt64(n: int) { MinInt64 <= n <= MaxInt64 }

  /** Go's wrap-around of an exact integer into int64 (two's complement). */
  function WrapInt64(n: int): (r: int)
    ensures InInt64(r)
    ensures InInt64(n) ==> r == n
    ensures (r - n) % 0x1_0000_0000_0000_0000 == 0
  {
    var m := (n - MinInt64) % 0x1_0000_0000_0000_0000;
    m + MinInt64
  }

  predicate IsDigit(c: char) { '0' <= c <= '9' }

  predicate AllDigits(s: string) {
    forall k :: 0 <= k < |s| ==> IsDigit(s[k])
  }

  function DigitValue(c: char): nat
    requires IsDigit(c)
  {
    c as int - '0' as int
  }

  function DigitChar(d: nat): (c: char)
    requires d < 10
    ensures IsDigit(c) && DigitValue(c) == d
  {
    ('0' as int + d) as char
  }

  /** The value of a string of decimal digits, most significant first. */
  function DigitsValue(s: string): nat
    requires AllDigits(s)
    decreases |s|
  {
    if |s| == 0 then 0 else DigitsValue(s[..|s| - 1]) * 10 + DigitValue(s[|s| - 1])
  }

  /** strconv.Atoi: an optional sign and one or more decimal digits whose value
      fits an int64; anything else (blank, spaces, underscores, overflow) fails. */
  function Atoi(s: string): (r: Option<int>)
    ensures r.Some? ==> InInt64(r.value) && |s| > 0
    ensures r.Some? ==> forall k :: 0 <= k < |s| ==> IsDigit(s[k]) || (k == 0 && (s[0] == '-' || s[0] == '+'))
    ensures r.Some? ==> IsDigit(s[|s| - 1])
    ensures |s| > 0 && AllDigits(s) ==> r == (if InInt64(DigitsValue(s)) then Some(DigitsValue(s)) else None)
    ensures |s| > 1 && s[0] == '+' && AllDigits(s[1..]) ==>
              r == (if InInt64(DigitsValue(s[1..])) then Some(DigitsValue(s[1..])) else None)
    ensures |s| > 1 && s[0] == '-' && AllDigits(s[1..]) ==>
              r == (if InInt64(-(DigitsValue(s[1..]) as int)) then Some(-(DigitsValue(s[1..]) as int)) else None)
  {
    if |s| == 0 then None
    else
      var digits := if s[0] == '-' || s[0] == '+' then s[1..] else s;
      if |digits| == 0 || !AllDigits(digits) then None
      else
        var v: int := if s[0] == '-' then -(DigitsValue(digits) as int) else DigitsValue(digits);
        if InInt64(v) then Some(v) else None
  }

  /** The shortest decimal digits of a natural number. */
  function NatDigits(n: nat): (s: string)
    ensures |s| > 0 && AllDigits(s)
    decreases n
  {
    if n < 10 then [DigitChar(n)] else NatDigits(n / 10) + [DigitChar(n % 10)]
  }

  /** strconv.Itoa (and fmt's "%d"). */
  function Itoa(n: int): string {
    if n < 0 then "-" + NatDigits(-n) else NatDigits(n)
  }

  lemma {:induction false} NatDigitsValue(n: nat)
    ensures DigitsValue(NatDigits(n)) == n
    decreases n
  {
    if n >= 10 {
      NatDigitsValue(n / 10);
      var s := NatDigits(n);
      assert s[..|s| - 1] == NatDigits(n / 10);
    }
  }

  /** Atoi reads back every int64 that Itoa writes. */
  lemma AtoiItoa(n: int)
    requires InInt64(n)
    ensures Atoi(Itoa(n)) == Some(n)
  {
    if n < 0 {
      NatDigitsValue(-n);
      assert Itoa(n)[1..] == NatDigits(-n);
    } else {
      NatDigitsValue(n);
    }
  }

  /** Go's int64(float64) conversion, truncating toward zero; only defined by
      Go for values that fit. */
  function TruncToInt(x: real): (n: int)
    ensures x >= 0.0 ==> n as real <= x < n as real + 1.0
    ensures x < 0.0 ==> n as real - 1.0 < x <= n as real
  {
    if x >= 0.0 then x.Floor else -((-x).Floor)
  }
}
