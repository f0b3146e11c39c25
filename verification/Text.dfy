/** The text forms in which numbers and bytes are stored and exchanged: hexadecimal and decimal. */
module Text {
  import opened Bits

  datatype Option<+T> = None | Some(value: T)

  // ---------- Hexadecimal (hex::encode, hex::decode) ----------

  const HEX_DIGITS := "0123456789abcdef"

  function HexEncode(b: seq<Byte>): (s: string)
    ensures |s| == 2 * |b|
  {
    if |b| == 0 then "" else [HEX_DIGITS[b[0] / 16], HEX_DIGITS[b[0] % 16]] + HexEncode(b[1..])
  }

  /** Both cases are accepted. */
  function HexValue(c: char): (r: Option<nat>)
    ensures r.Some? ==> r.value < 16
  {
    if '0' <= c <= '9' then Some(c as int - '0' as int)
    else if 'a' <= c <= 'f' then Some(c as int - 'a' as int + 10)
    else if 'A' <= c <= 'F' then Some(c as int - 'A' as int + 10)
    else None
  }

  /** Fails on an odd number of characters and on a character that is no digit. */
  function HexDecode(s: string): Option<seq<Byte>> {
    if |s| == 0 then Some([])
    else if |s| == 1 then None
    else
      match (HexValue(s[0]), HexValue(s[1]), HexDecode(s[2..]))
      case (Some(hi), Some(lo), Some(rest)) => Some([(16 * hi + lo) as Byte] + rest)
      case _ => None
  }

  /** trim_start_matches("0x"): strips the marker as often as it is there. */
  function TrimHex(s: string): string {
    if |s| >= 2 && s[0] == '0' && s[1] == 'x' then TrimHex(s[2..]) else s
  }

  lemma HexValueOfDigit(n: nat)
    requires n < 16
    ensures HexValue(HEX_DIGITS[n]) == Some(n) && HEX_DIGITS[n] != 'x'
  {
  }

  lemma DecodeTwo(a: char, c: char, t: string)
    requires HexValue(a).Some? && HexValue(c).Some? && HexDecode(t).Some?
    ensures HexDecode([a, c] + t) == Some([(16 * HexValue(a).value + HexValue(c).value) as Byte] + HexDecode(t).value)
  {
    hide HexValue;
    assert ([a, c] + t)[2..] == t;
  }

  lemma DecodePair(n: Byte, t: string)
    requires HexDecode(t).Some?
    ensures HexDecode([HEX_DIGITS[n / 16], HEX_DIGITS[n % 16]] + t) == Some([n] + HexDecode(t).value)
  {
    hide HexValue, HexDecode;
    HexValueOfDigit(n / 16);
    HexValueOfDigit(n % 16);
    DecodeTwo(HEX_DIGITS[n / 16], HEX_DIGITS[n % 16], t);
  }

  lemma {:induction false} HexRoundTrip(b: seq<Byte>)
    ensures HexDecode(HexEncode(b)) == Some(b)
  {
    if |b| > 0 {
      hide HexDecode;
      HexRoundTrip(b[1..]);
      DecodePair(b[0], HexEncode(b[1..]));
      assert b == [b[0]] + b[1..];
    }
  }

  /** The two digits of each byte, the high one first. */
  lemma {:induction false} HexAt(b: seq<Byte>, i: nat)
    requires i < 2 * |b|
    ensures HexEncode(b)[i] == HEX_DIGITS[if i % 2 == 0 then b[i / 2] as int / 16 else b[i / 2] as int % 16]
  {
    if i >= 2 {
      HexAt(b[1..], i - 2);
      assert b[1..][(i - 2) / 2] == b[i / 2];
    }
  }

  /** Which texts decode: those of even length whose characters are all digits, in either case. */
  lemma {:induction false} DecodesExactly(s: string)
    ensures HexDecode(s).Some? <==> |s| % 2 == 0 && forall i :: 0 <= i < |s| ==> HexValue(s[i]).Some?
    ensures HexDecode(s).Some? ==> 2 * |HexDecode(s).value| == |s|
  {
    hide HexValue;
    if |s| >= 2 {
      DecodesExactly(s[2..]);
      assert forall i :: 2 <= i < |s| ==> s[i] == s[2..][i - 2];
    }
  }

  /** All markers at the front are stripped, and only those. */
  lemma {:induction false} TrimsAll(s: string)
    ensures TrimHex("0x" + s) == TrimHex(s)
    ensures !("0x" <= TrimHex(s))
    ensures |TrimHex(s)| <= |s| && s[|s| - |TrimHex(s)|..] == TrimHex(s)
  {
    assert ("0x" + s)[2..] == s;
    if |s| >= 2 && s[0] == '0' && s[1] == 'x' {
      TrimsAll(s[2..]);
    }
  }

  /** Hexadecimal text never starts with another marker, so stripping repeatedly strips once. */
  lemma TrimOnce(b: seq<Byte>)
    ensures TrimHex("0x" + HexEncode(b)) == HexEncode(b)
  {
    var s := HexEncode(b);
    assert ("0x" + s)[2..] == s;
    if |b| > 0 {
      HexValueOfDigit(b[0] % 16);
    }
  }

  /** What the program writes with format!("0x{}", hex::encode(b)). */
  function Marked(b: seq<Byte>): string {
    "0x" + HexEncode(b)
  }

  /** What the program reads with hex::decode(s.trim_start_matches("0x")). */
  function ReadMarked(s: string): Option<seq<Byte>> {
    HexDecode(TrimHex(s))
  }

  lemma MarkedRoundTrip(b: seq<Byte>)
    ensures ReadMarked(Marked(b)) == Some(b)
  {
    TrimOnce(b);
    HexRoundTrip(b);
  }

  // ---------- Decimal (to_string, parse) ----------

  function DigitChar(n: nat): char
    requires n < 10
  {
    HEX_DIGITS[n]
  }

  function ToDecimal(n: nat): (s: string)
    ensures |s| > 0
    ensures forall c :: c in s ==> '0' <= c <= '9'
  {
    if n < 10 then [DigitChar(n)] else ToDecimal(n / 10) + [DigitChar(n % 10)]
  }

  /** The digits of an unsigned number, most significant first; fails on a non-digit or beyond max. */
  function ParseDigits(s: string, max: nat): (r: Option<nat>)
    ensures r.Some? ==> r.value <= max
  {
    if |s| == 0 then Some(0)
    else
      var c := s[|s| - 1];
      match ParseDigits(s[..|s| - 1], max)
      case None => None
      case Some(n) =>
        if !('0' <= c <= '9') then None
        else var v := 10 * n + (c as int - '0' as int); if v > max then None else Some(v)
  }

  /** str::parse for an unsigned type with the given maximum: an optional plus sign, then at least one digit. */
  function ParseUint(s: string, max: nat): (r: Option<nat>)
    ensures r.Some? ==> r.value <= max
  {
    if |s| == 0 then None
    else if s[0] == '+' then (if |s| == 1 then None else ParseDigits(s[1..], max))
    else ParseDigits(s, max)
  }

  lemma DigitValue(d: nat)
    requires d < 10
    ensures '0' <= DigitChar(d) <= '9' && DigitChar(d) as int - '0' as int == d
  {
  }

  lemma LastDigit(n: nat)
    ensures n < 10 ==> ToDecimal(n) == "" + [DigitChar(n)]
    ensures n >= 10 ==> ToDecimal(n) == ToDecimal(n / 10) + [DigitChar(n % 10)]
  {
    hide DigitChar;
  }

  lemma ParseNone(max: nat)
    ensures ParseDigits("", max) == Some(0)
  {
  }

  lemma ParseLast(s: string, d: nat, max: nat)
    requires d < 10
    ensures ParseDigits(s + [DigitChar(d)], max) ==
            match ParseDigits(s, max)
            case None => None
            case Some(n) => if 10 * n + d > max then None else Some(10 * n + d)
  {
    DigitValue(d);
    hide DigitChar;
    assert (s + [DigitChar(d)])[..|s|] == s;
  }

  lemma {:induction false} DigitsRoundTrip(n: nat, max: nat)
    ensures ParseDigits(ToDecimal(n), max) == if n <= max then Some(n) else None
  {
    hide ParseDigits, DigitChar;
    LastDigit(n);
    hide ToDecimal;
    if n < 10 {
      ParseNone(max);
      ParseLast("", n, max);
    } else {
      DigitsRoundTrip(n / 10, max);
      ParseLast(ToDecimal(n / 10), n % 10, max);
    }
  }

  /** A number within the type's range survives its decimal form; a larger one is an error. */
  lemma DecimalRoundTrip(n: nat, max: nat)
    ensures ParseUint(ToDecimal(n), max) == if n <= max then Some(n) else None
  {
    DigitsRoundTrip(n, max);
    assert ToDecimal(n)[0] in ToDecimal(n);
  }

  lemma DecimalInjective(m: nat, n: nat)
    requires ToDecimal(m) == ToDecimal(n)
    ensures m == n
  {
    hide ToDecimal, ParseUint;
    DecimalRoundTrip(m, m + n);
    DecimalRoundTrip(n, m + n);
  }
}
