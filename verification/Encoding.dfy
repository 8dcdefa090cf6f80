/** Byte strings and the two text encodings used in skip keys, wire messages and saved sessions:
    base64 as in section 4 of RFC 4648, and decimal numerals. */
module Encoding {
  type Byte = x: int | 0 <= x < 256
  type Bytes = seq<Byte>
  type Sextet = x: int | 0 <= x < 64

  // ---------------------------------------------------------------- base64

  /** The alphabet of RFC 4648, table 1. */
  function Digit(v: Sextet): char {
    if v < 26 then ('A' as int + v) as char
    else if v < 52 then ('a' as int + (v - 26)) as char
    else if v < 62 then ('0' as int + (v - 52)) as char
    else if v == 62 then '+'
    else '/'
  }

  /** The position of a character in the alphabet, or -1. */
  function Value(c: char): int {
    if 'A' <= c <= 'Z' then c as int - 'A' as int
    else if 'a' <= c <= 'z' then c as int - 'a' as int + 26
    else if '0' <= c <= '9' then c as int - '0' as int + 52
    else if c == '+' || c == '-' then 62
    else if c == '/' || c == '_' then 63
    else -1
  }

  /** Buffer.from(bytes).toString('base64') */
  function Base64(b: Bytes): string {
    if |b| == 0 then ""
    else if |b| == 1 then [Digit(b[0] / 4), Digit(b[0] % 4 * 16), '=', '=']
    else if |b| == 2 then [Digit(b[0] / 4), Digit(b[0] % 4 * 16 + b[1] / 16), Digit(b[1] % 16 * 4), '=']
    else
      [Digit(b[0] / 4), Digit(b[0] % 4 * 16 + b[1] / 16), Digit(b[1] % 16 * 4 + b[2] / 64), Digit(b[2] % 64)]
      + Base64(b[3..])
  }

  /** The digit values of a text up to its padding; other characters are skipped. */
  function Sextets(s: string): seq<Sextet> {
    if s == "" || s[0] == '=' then []
    else if 0 <= Value(s[0]) < 64 then [Value(s[0])] + Sextets(s[1..])
    else Sextets(s[1..])
  }

  function FirstByte(v: Sextet, w: Sextet): Byte {
    (v as int) * 4 + (w as int) / 16
  }

  function SecondByte(w: Sextet, x: Sextet): Byte {
    (w as int) % 16 * 16 + (x as int) / 4
  }

  function ThirdByte(x: Sextet, y: Sextet): Byte {
    (x as int) % 4 * 64 + (y as int)
  }

  /** Regroups six-bit digits into bytes; leftover bits are dropped. */
  function Pack(d: seq<Sextet>): Bytes {
    if |d| < 2 then []
    else if |d| == 2 then [FirstByte(d[0], d[1])]
    else if |d| == 3 then [FirstByte(d[0], d[1]), SecondByte(d[1], d[2])]
    else [FirstByte(d[0], d[1]), SecondByte(d[1], d[2]), ThirdByte(d[2], d[3])] + Pack(d[4..])
  }

  /** Buffer.from(text, 'base64') on padded text. */
  function FromBase64(s: string): Bytes {
    Pack(Sextets(s))
  }

  lemma DigitValue(v: Sextet)
    ensures Value(Digit(v)) == v && Digit(v) != '=' && Digit(v) != ':'
  {
  }

  lemma SextetsCons(v: Sextet, s: string)
    ensures Sextets([Digit(v)] + s) == [v] + Sextets(s)
  {
    DigitValue(v);
    assert ([Digit(v)] + s)[1..] == s;
  }

  lemma SextetsPair(v: Sextet, w: Sextet, s: string)
    ensures Sextets([Digit(v), Digit(w)] + s) == [v, w] + Sextets(s)
  {
    SextetsCons(w, s);
    SextetsCons(v, [Digit(w)] + s);
    assert [Digit(v), Digit(w)] + s == [Digit(v)] + ([Digit(w)] + s);
  }

  lemma SextetsQuad(v: Sextet, w: Sextet, x: Sextet, y: Sextet, s: string)
    ensures Sextets([Digit(v), Digit(w), Digit(x), Digit(y)] + s) == [v, w, x, y] + Sextets(s)
  {
    SextetsPair(x, y, s);
    SextetsPair(v, w, [Digit(x), Digit(y)] + s);
    assert [Digit(v), Digit(w), Digit(x), Digit(y)] + s == [Digit(v), Digit(w)] + ([Digit(x), Digit(y)] + s);
  }

  lemma SextetsPadded(v: Sextet, w: Sextet, rest: string)
    requires rest != "" && rest[0] == '='
    ensures Sextets([Digit(v), Digit(w)] + rest) == [v, w]
  {
    SextetsCons(w, rest);
    SextetsCons(v, [Digit(w)] + rest);
    assert [Digit(v), Digit(w)] + rest == [Digit(v)] + ([Digit(w)] + rest);
  }

  /** Splitting three bytes into four digits loses nothing. */
  lemma TripleRoundTrip(a: Byte, b: Byte, c: Byte)
    ensures FirstByte(a / 4, a % 4 * 16 + b / 16) == a
    ensures SecondByte(a % 4 * 16 + b / 16, b % 16 * 4 + c / 64) == b
    ensures ThirdByte(b % 16 * 4 + c / 64, c % 64) == c
  {
  }

  /** The four digits of three bytes. */
  function Digits(a: Byte, b: Byte, c: Byte): seq<Sextet> {
    [a / 4, a % 4 * 16 + b / 16, b % 16 * 4 + c / 64, c % 64]
  }

  lemma PackQuad(a: Byte, b: Byte, c: Byte, rest: seq<Sextet>)
    ensures Pack(Digits(a, b, c) + rest) == [a, b, c] + Pack(rest)
  {
    TripleRoundTrip(a, b, c);
    assert (Digits(a, b, c) + rest)[4..] == rest;
  }

  lemma QuadSextets(a: Byte, b: Byte, c: Byte, rest: Bytes)
    ensures Sextets(Base64([a, b, c] + rest)) == Digits(a, b, c) + Sextets(Base64(rest))
  {
    SextetsQuad(a / 4, a % 4 * 16 + b / 16, b % 16 * 4 + c / 64, c % 64, Base64(rest));
    assert ([a, b, c] + rest)[3..] == rest;
  }

  lemma OneByteRoundTrip(a: Byte)
    ensures FromBase64(Base64([a])) == [a]
  {
    TripleRoundTrip(a, 0, 0);
    SextetsPadded(a / 4, a % 4 * 16, "==");
    assert Base64([a]) == [Digit(a / 4), Digit(a % 4 * 16)] + "==";
  }

  lemma TwoBytesRoundTrip(a: Byte, b: Byte)
    ensures FromBase64(Base64([a, b])) == [a, b]
  {
    TripleRoundTrip(a, b, 0);
    var v, w, x: Sextet := a / 4, a % 4 * 16 + b / 16, b % 16 * 4;
    SextetsPadded(w, x, "=");
    SextetsCons(v, [Digit(w), Digit(x)] + "=");
    assert Base64([a, b]) == [Digit(v)] + ([Digit(w), Digit(x)] + "=");
  }

  lemma QuadRoundTrip(a: Byte, b: Byte, c: Byte, rest: Bytes)
    ensures FromBase64(Base64([a, b, c] + rest)) == [a, b, c] + FromBase64(Base64(rest))
  {
    QuadSextets(a, b, c, rest);
    PackQuad(a, b, c, Sextets(Base64(rest)));
  }

  /** Decoding undoes encoding, for byte strings of every length. */
  lemma {:induction false} Base64RoundTrip(b: Bytes)
    ensures FromBase64(Base64(b)) == b
  {
    if |b| == 1 {
      OneByteRoundTrip(b[0]);
      assert b == [b[0]];
    } else if |b| == 2 {
      TwoBytesRoundTrip(b[0], b[1]);
      assert b == [b[0], b[1]];
    } else if |b| > 2 {
      QuadRoundTrip(b[0], b[1], b[2], b[3..]);
      Base64RoundTrip(b[3..]);
      assert b == [b[0], b[1], b[2]] + b[3..];
    }
  }

  lemma {:induction false} Base64NoColon(b: Bytes)
    ensures ':' !in Base64(b)
  {
    if |b| >= 3 {
      Base64NoColon(b[3..]);
    }
  }

  /** Only the empty byte string encodes to the empty text. */
  lemma Base64Empty(b: Bytes)
    ensures Base64(b) == "" <==> b == []
  {
  }

  // --------------------------------------------------------------- numerals

  /** A number inside a template literal. */
  function Decimal(n: nat): string {
    var last := [('0' as int + n % 10) as char];
    if n < 10 then last else Decimal(n / 10) + last
  }

  function DecimalValue(s: string): int {
    if s == "" then 0 else 10 * DecimalValue(s[..|s| - 1]) + (s[|s| - 1] as int - '0' as int)
  }

  lemma {:induction false} DecimalRoundTrip(n: nat)
    ensures Decimal(n) != "" && DecimalValue(Decimal(n)) == n
  {
    var s := Decimal(n);
    if n >= 10 {
      DecimalRoundTrip(n / 10);
      assert s[..|s| - 1] == Decimal(n / 10);
    } else {
      assert s[..|s| - 1] == "";
    }
  }

  // -------------------------------------------------------------- joined keys

  /** The text before the first colon: key.split(':')[0]. */
  function BeforeColon(s: string): string {
    if s == "" || s[0] == ':' then "" else [s[0]] + BeforeColon(s[1..])
  }

  lemma {:induction false} BeforeColonOf(a: string, b: string)
    requires ':' !in a
    ensures BeforeColon(a + ":" + b) == a
  {
    if a != "" {
      BeforeColonOf(a[1..], b);
      assert (a + ":" + b)[1..] == a[1..] + ":" + b;
      assert a == [a[0]] + a[1..];
    }
  }

  /** Two texts joined by a colon determine their parts when the left parts have no colon. */
  lemma ColonSplit(a: string, b: string, x: string, y: string)
    requires ':' !in a && ':' !in x
    requires a + ":" + b == x + ":" + y
    ensures a == x && b == y
  {
    BeforeColonOf(a, b);
    BeforeColonOf(x, y);
    assert b == (a + ":" + b)[|a| + 1..] && y == (x + ":" + y)[|x| + 1..];
  }

  /** So do two texts whose right parts have no colon. */
  lemma LastColonSplit(a: string, b: string, x: string, y: string)
    requires ':' !in b && ':' !in y
    requires a + ":" + b == x + ":" + y
    ensures a == x && b == y
  {
    var t := a + ":" + b;
    ColonNotAfter(a, b, y, t, x);
    ColonNotAfter(x, y, b, t, a);
    assert a == t[..|a|] && b == t[|a| + 1..];
    assert x == t[..|x|] && y == t[|x| + 1..];
  }

  lemma ColonNotAfter(a: string, b: string, y: string, t: string, x: string)
    requires t == a + ":" + b == x + ":" + y && ':' !in y
    ensures |y| <= |b|
  {
    assert t[|a|] == ':';
    assert forall i :: |x| < i < |t| ==> t[i] == y[i - |x| - 1];
  }
}
