/** C strings and the C library calls the server leans on.  One byte is one
    `char`; a C string is its bytes without the terminating NUL. */
module Text {
  const NUL: char := '\0'
  const CRLF: string := "\r\n"
  const TWO63: int := 0x8000_0000_0000_0000
  const TWO64: int := 0x1_0000_0000_0000_0000

  datatype Option<+T> = None | Some(value: T)

  /** `isspace` in the C locale: space, tab, newline, vertical tab, form feed, carriage return. */
  predicate IsSpace(c: char) {
    c == ' ' || c == '\t' || c == '\n' || c == '\U{000B}' || c == '\U{000C}' || c == '\r'
  }

  function LowerChar(c: char): char {
    if 'A' <= c <= 'Z' then (c as int + 32) as char else c
  }

  /** `tolower` over a whole string. */
  function Lower(s: string): (r: string)
    ensures |r| == |s|
    ensures forall i :: 0 <= i < |s| ==> r[i] == LowerChar(s[i])
  {
    seq(|s|, i requires 0 <= i < |s| => LowerChar(s[i]))
  }

  predicate NulFree(s: string) { NUL !in s }

  /** What `strlen`, `strdup` and `strcmp` see of a buffer: everything before the first NUL. */
  function CStr(s: string): (r: string)
    ensures r <= s && NulFree(r)
    ensures NulFree(s) ==> r == s
  {
    if s == "" || s[0] == NUL then "" else [s[0]] + CStr(s[1..])
  }

  /** The first NUL decides, whatever follows it. */
  lemma {:induction false} CStrAt(s: string, n: nat)
    requires n < |s| && s[n] == NUL && NulFree(s[..n])
    ensures CStr(s) == s[..n]
  {
    if n > 0 {
      assert s[..n][0] == s[0];
      assert s[1..][..n - 1] == s[..n][1..];
      CStrAt(s[1..], n - 1);
    }
  }

  // ---------- decimal printing ("%lld") and strtoll ----------

  function Digit(d: nat): char
    requires d < 10
  {
    ('0' as int + d) as char
  }

  predicate IsDigit(c: char) { '0' <= c <= '9' }

  function Digits(n: nat): (s: string)
    ensures s != "" && forall c :: c in s ==> IsDigit(c)
  {
    if n < 10 then [Digit(n)] else Digits(n / 10) + [Digit(n % 10)]
  }

  function Decimal(n: int): string {
    if n < 0 then "-" + Digits(-n) else Digits(n)
  }

  function DigitRun(s: string): (n: nat)
    ensures n <= |s|
    ensures forall i :: 0 <= i < n ==> IsDigit(s[i])
    ensures n < |s| ==> !IsDigit(s[n])
  {
    if s != "" && IsDigit(s[0]) then 1 + DigitRun(s[1..]) else 0
  }

  function SpaceRun(s: string): (n: nat)
    ensures n <= |s|
    ensures forall i :: 0 <= i < n ==> IsSpace(s[i])
    ensures n < |s| ==> !IsSpace(s[n])
  {
    if s != "" && IsSpace(s[0]) then 1 + SpaceRun(s[1..]) else 0
  }

  function DigitsValue(s: string): nat
    requires forall i :: 0 <= i < |s| ==> IsDigit(s[i])
  {
    if s == "" then 0
    else
      assert IsDigit(s[|s| - 1]);
      10 * DigitsValue(s[..|s| - 1]) + (s[|s| - 1] as int - '0' as int)
  }

  function Clamp64(n: int): int {
    if n < -TWO63 then -TWO63 else if n >= TWO63 then TWO63 - 1 else n
  }

  datatype Number = Number(value: int, rest: string)

  /** `strtoll(s, &rest, 10)`: leading white space, an optional sign, digits,
      saturation; without a digit nothing is consumed. */
  function Strtoll(s: string): Number {
    var body := s[SpaceRun(s)..];
    var digits := if body != "" && (body[0] == '-' || body[0] == '+') then body[1..] else body;
    var n := DigitRun(digits);
    if n == 0 then Number(0, s)
    else
      var v: int := DigitsValue(digits[..n]);
      Number(Clamp64(if body[0] == '-' then -v else v), digits[n..])
  }

  function Atoll(s: string): int { Strtoll(s).value }

  /** Conversion of a signed sum to `uint64_t`. */
  function U64(n: int): (r: nat)
    ensures r < TWO64
    ensures 0 <= n < TWO64 ==> r == n
  {
    n % TWO64
  }

  /** Conversion of a sum to `long long` (two's complement). */
  function I64(n: int): (r: int)
    ensures -TWO63 <= r < TWO63
    ensures -TWO63 <= n < TWO63 ==> r == n
  {
    (n + TWO63) % TWO64 - TWO63
  }

  lemma {:induction false} DigitsValueOfDigits(n: nat)
    ensures DigitsValue(Digits(n)) == n
  {
    if n < 10 {
      assert Digits(n)[..0] == "";
    } else {
      DigitsValueOfDigits(n / 10);
      assert Digits(n)[..|Digits(n)| - 1] == Digits(n / 10);
    }
  }

  lemma {:induction false} DigitRunAll(s: string)
    requires forall i :: 0 <= i < |s| ==> IsDigit(s[i])
    ensures DigitRun(s) == |s|
  {
  }

  /** `strtoll` reads back, in full, every 64-bit number that "%lld" printed. */
  lemma DecimalRoundTrip(n: int)
    requires -TWO63 <= n < TWO63
    ensures Strtoll(Decimal(n)) == Number(n, "")
  {
    var s := Decimal(n);
    var d := if n < 0 then Digits(-n) else Digits(n);
    assert !IsSpace(s[0]) by { assert n >= 0 ==> s[0] in d; }
    assert SpaceRun(s) == 0 && s[0..] == s;
    assert n >= 0 ==> IsDigit(s[0]);
    assert (if s[0] == '-' || s[0] == '+' then s[1..] else s) == d;
    DigitRunAll(d);
    assert d[..|d|] == d;
    DigitsValueOfDigits(if n < 0 then -n else n);
  }
}
