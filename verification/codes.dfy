/** Hexadecimal rendering of random bytes, as `crypto.randomBytes(n).toString("hex")` does, and the
    code formats the account flows build from it. The random bytes themselves are inputs. */
module Codes {
  import opened Common

  newtype Byte = x: int | 0 <= x < 256

  /** The digit for a nibble: `0`–`9`, then `a`–`f` (or `A`–`F` after `toUpperCase()`). */
  function HexDigit(n: int, upper: bool): (c: char)
    requires 0 <= n < 16
    ensures IsHexDigit(c, upper)
  {
    if n < 10 then ('0' as int + n) as char
    else if upper then ('A' as int + n - 10) as char
    else ('a' as int + n - 10) as char
  }

  predicate IsHexDigit(c: char, upper: bool) {
    ('0' <= c <= '9') || (upper && 'A' <= c <= 'F') || (!upper && 'a' <= c <= 'f')
  }

  /** The nibble a digit stands for; either case is read. */
  function DigitValue(c: char): Option<int> {
    if '0' <= c <= '9' then Some(c as int - '0' as int)
    else if 'A' <= c <= 'F' then Some(c as int - 'A' as int + 10)
    else if 'a' <= c <= 'f' then Some(c as int - 'a' as int + 10)
    else None
  }

  lemma DigitRoundTrip(n: int, upper: bool)
    requires 0 <= n < 16
    ensures DigitValue(HexDigit(n, upper)) == Some(n)
  {
  }

  /** Two digits per byte, high nibble first. */
  function Hex(bytes: seq<Byte>, upper: bool): (r: string)
    ensures |r| == 2 * |bytes|
    ensures forall i :: 0 <= i < |r| ==> IsHexDigit(r[i], upper)
  {
    if |bytes| == 0 then ""
    else
      var b := bytes[0] as int;
      [HexDigit(b / 16, upper), HexDigit(b % 16, upper)] + Hex(bytes[1..], upper)
  }

  /** Reads a hex string back into bytes; None for an odd length or a non-hex character. */
  function Unhex(s: string): (r: Option<seq<Byte>>)
    ensures r.Some? ==> 2 * |r.value| == |s|
    decreases |s|
  {
    if |s| == 0 then Some([])
    else if |s| == 1 then None
    else
      match (DigitValue(s[0]), DigitValue(s[1]), Unhex(s[2..]))
      case (Some(hi), Some(lo), Some(rest)) =>
        if 0 <= hi < 16 && 0 <= lo < 16 then Some([(hi * 16 + lo) as Byte] + rest) else None
      case _ => None
  }

  /** Rendering loses nothing: reading the digits back gives the bytes, in either case. */
  lemma {:induction false} UnhexHex(bytes: seq<Byte>, upper: bool)
    ensures Unhex(Hex(bytes, upper)) == Some(bytes)
  {
    if |bytes| > 0 {
      var b := bytes[0] as int;
      var s := Hex(bytes, upper);
      assert s[2..] == Hex(bytes[1..], upper);
      DigitRoundTrip(b / 16, upper);
      DigitRoundTrip(b % 16, upper);
      UnhexHex(bytes[1..], upper);
      assert [bytes[0]] + bytes[1..] == bytes;
    }
  }

  /** So distinct random draws give distinct codes. */
  lemma HexInjective(a: seq<Byte>, b: seq<Byte>, upper: bool)
    requires Hex(a, upper) == Hex(b, upper)
    ensures a == b
  {
    UnhexHex(a, upper);
    UnhexHex(b, upper);
  }

  /** `generateCompanyRefId`: "REF-" and four random bytes in upper-case hex. */
  function CompanyRefId(bytes: seq<Byte>): (r: string)
    requires |bytes| == 4
    ensures |r| == 12 && r[..4] == "REF-"
    ensures forall i :: 4 <= i < 12 ==> IsHexDigit(r[i], true)
  {
    "REF-" + Hex(bytes, true)
  }

  /** `generateVerificationCode` (also the login code): three random bytes in upper-case hex, six
      characters. */
  function VerificationCode(bytes: seq<Byte>): (r: string)
    requires |bytes| == 3
    ensures |r| == 6 && forall i :: 0 <= i < 6 ==> IsHexDigit(r[i], true)
  {
    Hex(bytes, true)
  }

  /** The password-reset token: twenty random bytes in lower-case hex, forty characters. */
  function ResetToken(bytes: seq<Byte>): (r: string)
    requires |bytes| == 20
    ensures |r| == 40 && forall i :: 0 <= i < 40 ==> IsHexDigit(r[i], false)
  {
    Hex(bytes, false)
  }
}
