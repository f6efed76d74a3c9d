/** Query escaping of return paths: bytes that are not letters, digits or one of "-_.~" as %XX, a blank as
    a plus. */
module Query {
  import Seqs

  predicate Plain(c: char) {
    'a' <= c <= 'z' || 'A' <= c <= 'Z' || '0' <= c <= '9' || c in "-_.~"
  }

  const HEX := "0123456789ABCDEF"

  function Digit(d: nat): char
    requires d < 16
  {
    HEX[d]
  }

  /** What a hexadecimal digit stands for; lower-case digits are read as well. */
  function ValueOf(c: char): int {
    if '0' <= c <= '9' then c as int - '0' as int
    else if 'A' <= c <= 'F' then c as int - 'A' as int + 10
    else if 'a' <= c <= 'f' then c as int - 'a' as int + 10
    else -1
  }

  predicate Byte(c: char) { c as int < 256 }

  function EscapeChar(c: char): string
    requires Byte(c)
  {
    if Plain(c) then [c]
    else if c == ' ' then "+"
    else ['%', Digit(c as int / 16), Digit(c as int % 16)]
  }

  function Escape(s: string): string
    requires forall c | c in s :: Byte(c)
  {
    if s == "" then "" else EscapeChar(s[0]) + Escape(s[1..])
  }

  datatype Result = Ok(value: string) | Bad

  function Unescape(q: string): Result
    decreases |q|
  {
    if q == "" then Ok("")
    else if q[0] == '%' then
      if |q| < 3 || ValueOf(q[1]) < 0 || ValueOf(q[2]) < 0 then Bad
      else Then((16 * ValueOf(q[1]) + ValueOf(q[2])) as char, Unescape(q[3..]))
    else Then(if q[0] == '+' then ' ' else q[0], Unescape(q[1..]))
  }

  function Then(c: char, rest: Result): Result {
    if rest.Ok? then Ok([c] + rest.value) else Bad
  }

  const SMALL_HEX := "0123456789abcdef"

  /** The characters left as they are are the unreserved ones of section 2.3 of RFC 3986. */
  lemma PlainExactly(c: char)
    ensures Plain(c) <==>
              || 65 <= c as int <= 90 || 97 <= c as int <= 122 || 48 <= c as int <= 57
              || c == '-' || c == '.' || c == '_' || c == '~'
  {
    assert 'A' as int == 65 && 'Z' as int == 90 && 'a' as int == 97 && 'z' as int == 122 && '0' as int == 48;
  }

  /** Digits are read in either case, and nothing else is. */
  lemma ValuesExactly(c: char, d: nat)
    requires d < 16
    ensures ValueOf(c) == d <==> c == HEX[d] || c == SMALL_HEX[d]
    ensures ValueOf(c) < 0 || ValueOf(c) < 16
  {
  }

  lemma DigitValue(d: nat)
    requires d < 16
    ensures ValueOf(Digit(d)) == d
  {
    if d < 10 { assert Digit(d) == ('0' as int + d) as char; }
    else { assert Digit(d) == ('A' as int + d - 10) as char; }
  }

  lemma OneChar(c: char, rest: string)
    requires Byte(c)
    ensures Unescape(EscapeChar(c) + rest) == Then(c, Unescape(rest))
  {
    var q := EscapeChar(c) + rest;
    if Plain(c) || c == ' ' {
      assert q[1..] == rest;
    } else {
      DigitValue(c as int / 16);
      DigitValue(c as int % 16);
      assert q[3..] == rest;
    }
  }

  /** What was escaped reads back as it was, and nothing in it separates parameters. */
  lemma {:induction false} EscapeReadsBack(s: string)
    requires forall c | c in s :: Byte(c)
    ensures Unescape(Escape(s)) == Ok(s)
    ensures forall c | c in Escape(s) :: Plain(c) || c == '+' || c == '%'
  {
    if s != "" {
      EscapeReadsBack(s[1..]);
      OneChar(s[0], Escape(s[1..]));
      Seqs.HeadTail(s);
    }
  }
}
