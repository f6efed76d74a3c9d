/** One-time codes (internal/otp/otp.go). The 31-bit number cut out of the HMAC is a parameter. */
module Otp {
  import opened Clock
  import Seqs

  const WORD := 0x1_0000_0000
  const DEFAULT_STEP := 30 * SECOND

  datatype Result<+T> = Done(value: T) | DividedByZero

  function Pow10(n: nat): (r: nat)
    ensures r > 0
  {
    if n == 0 then 1 else 10 * Pow10(n - 1)
  }

  /** mod, a uint32 multiplied by ten for every digit. */
  function Modulus(digits: nat): nat {
    if digits == 0 then 1 else Modulus(digits - 1) * 10 % WORD
  }

  function Char(d: nat): char
    requires d < 10
  {
    ['0', '1', '2', '3', '4', '5', '6', '7', '8', '9'][d]
  }

  /** The last n decimal digits of v, leading zeros included. */
  function Digits(v: nat, n: nat): (s: string)
    ensures |s| == n
  {
    if n == 0 then "" else Digits(v / 10, n - 1) + [Char(v % 10)]
  }

  /** The code of a truncated HMAC value: what At returns. */
  function Code(value: nat, digits: nat): Result<string> {
    if Modulus(digits) == 0 then DividedByZero
    else Done(Digits(value % Modulus(digits), digits))
  }

  method At(value: nat, digits: nat) returns (code: Result<string>)
    requires value < 0x8000_0000
    ensures code == Code(value, digits)
  {
    var mod := 1;
    for k := 0 to digits
      invariant mod == Modulus(k)
    {
      mod := mod * 10 % WORD;
    }
    if mod == 0 { return DividedByZero; }
    var out := new char[digits];
    var rest := value % mod;
    ghost var all := Digits(rest, digits);
    var i := digits;
    while i > 0
      invariant 0 <= i <= digits && rest >= 0
      invariant Digits(rest, i) + out[i..] == all
    {
      i := i - 1;
      ghost var tail := out[i + 1..];
      out[i] := Char(rest % 10);
      assert out[i..] == [Char(rest % 10)] + tail;
      Seqs.Assoc(Digits(rest / 10, i), [Char(rest % 10)], tail);
      rest := rest / 10;
    }
    assert out[..] == out[0..] == Digits(rest, 0) + out[0..];
    return Done(out[..]);
  }

  /** counter: the time step a moment falls into. unix counts seconds since 1970. */
  function Counter(unix: nat, step: int): Result<nat> {
    var step := if step <= 0 then DEFAULT_STEP else step;
    if step / SECOND == 0 then DividedByZero else Done(unix / (step / SECOND))
  }

  // What a code means (section 5.3 of RFC 4226): the value modulo 10^digits, digits long.

  function DigitOf(c: char): int { c as int - '0' as int }

  function Number(code: string): int {
    if code == "" then 0 else Number(code[..|code| - 1]) * 10 + DigitOf(code[|code| - 1])
  }

  ghost predicate Decimal(code: string) {
    forall c | c in code :: '0' <= c <= '9'
  }

  /** The code section 5.3 of RFC 4226 asks for. */
  ghost predicate Hotp(code: string, value: nat, digits: nat) {
    Decimal(code) && |code| == digits && Number(code) == value % Pow10(digits)
  }

  lemma SplitModulo(v: nat, p: nat)
    requires p > 0
    ensures (v / 10 % p) * 10 + v % 10 == v % (10 * p)
  {
    var q, r := v / 10 / p, v / 10 % p;
    assert v / 10 == q * p + r;
    assert v == q * (10 * p) + (r * 10 + v % 10);
    DivMod(v, 10 * p, q, r * 10 + v % 10);
  }

  lemma Multiple(k: int, d: int, x: int)
    requires k * d == x && -d < x < d
    ensures k == 0
  {
    AtLeast(k, d);
    AtLeast(-k, d);
  }

  lemma AtLeast(k: int, d: int)
    requires d > 0
    ensures k > 0 ==> k * d >= d
  {
    if k > 0 { assert k * d == (k - 1) * d + d; }
  }

  lemma DivMod(v: nat, d: nat, q: nat, r: nat)
    requires v == q * d + r && r < d
    ensures v % d == r
  {
    assert (v / d - q) * d == r - v % d;
    Multiple(v / d - q, d, r - v % d);
  }

  lemma {:induction false} DigitsAreHotp(v: nat, n: nat)
    ensures Hotp(Digits(v, n), v, n)
  {
    if n > 0 {
      var s := Digits(v / 10, n - 1);
      DigitsAreHotp(v / 10, n - 1);
      assert (s + [Char(v % 10)])[..n - 1] == s;
      SplitModulo(v, Pow10(n - 1));
    }
  }

  const POWERS := [1, 10, 100, 1000, 1_0000, 10_0000, 100_0000, 1000_0000, 1_0000_0000, 10_0000_0000]

  lemma {:induction false} SmallModulus(n: nat)
    requires n <= 9
    ensures Modulus(n) == Pow10(n) == POWERS[n] < WORD
  {
    if n > 0 { SmallModulus(n - 1); }
  }

  lemma TenDigits(n: nat)
    requires n == 10
    ensures Modulus(n) == 1_410_065_408 && Pow10(n) == 10_000_000_000
  {
    hide POWERS, Modulus, Pow10;
    OneMore(n);
    NineDigits(n - 1);
  }

  lemma OneMore(n: nat)
    requires n > 0
    ensures Modulus(n) == Modulus(n - 1) * 10 % WORD && Pow10(n) == 10 * Pow10(n - 1)
  {
  }

  lemma NineDigits(n: nat)
    requires n == 9
    ensures Modulus(n) == Pow10(n) == 1_000_000_000
  {
    hide Modulus, Pow10;
    SmallModulus(n);
  }

  lemma {:induction false} ModModulo(v: nat, n: nat)
    ensures v % Pow10(n) % Pow10(n) == v % Pow10(n)
  {
    DivMod(v % Pow10(n), Pow10(n), 0, v % Pow10(n));
  }

  /** Up to nine digits the code is the one of RFC 4226. With ten, 10^10 does not fit the word: the
      code is right exactly for the values below the wrapped modulus. */
  lemma CodeIsHotp(value: nat, digits: nat)
    requires value < 0x8000_0000 && digits <= 10
    ensures Code(value, digits).Done?
    ensures Hotp(Code(value, digits).value, value, digits) <==> digits <= 9 || value < 1_410_065_408
  {
    hide Modulus, Pow10, Digits, Number, POWERS;
    if digits <= 9 { SmallModulus(digits); } else { TenDigits(digits); }
    var shown := value % Modulus(digits);
    DigitsAreHotp(shown, digits);
    if digits <= 9 {
      ModModulo(value, digits);
    } else {
      DivMod(shown, Pow10(10), 0, shown);
      DivMod(value, Pow10(10), 0, value);
    }
  }

  /** Two values show the same code exactly when they agree modulo 10^digits. */
  lemma SameCode(v: nat, w: nat, digits: nat)
    requires digits <= 9
    ensures Code(v, digits) == Code(w, digits) <==> v % Pow10(digits) == w % Pow10(digits)
  {
    SmallModulus(digits);
    DigitsAreHotp(v % Pow10(digits), digits);
    DigitsAreHotp(w % Pow10(digits), digits);
    ModModulo(v, digits);
    ModModulo(w, digits);
  }

  /** A period that is positive and shorter than a second cannot be counted in. */
  lemma CounterDividesByZero(unix: nat, step: int)
    ensures Counter(unix, step).DividedByZero? <==> 0 < step < SECOND
  {
  }
}
