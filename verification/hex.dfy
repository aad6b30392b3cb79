/**
 * Lowercase base16 text of a digest, as section 8 of RFC 4648 defines it, written the way
 * the password hashing builds it: every byte goes through `toString(16)` and `padStart(2, '0')`
 * and the pieces are joined.  `Decode` is the inverse used to state that nothing is lost.
 */
module Hex {
  import opened Types

  newtype byte = x: int | 0 <= x < 256

  /** Length in bytes of a SHA-256 digest (FIPS 180-4). */
  const Sha256Length: nat := 32

  /** A lowercase hexadecimal digit, `0`-`9` or `a`-`f`. */
  predicate IsHexDigit(c: char)
  {
    '0' <= c <= '9' || 'a' <= c <= 'f'
  }

  /** The digit for a value below 16. */
  function Digit(d: nat): (c: char)
    requires d < 16
    ensures IsHexDigit(c)
  {
    if d < 10 then ('0' as int + d) as char else ('a' as int + d - 10) as char
  }

  /** `b.toString(16)`: the base-16 numeral of `b` without leading zeros. */
  function ToBase16(b: byte): (s: string)
    ensures 1 <= |s| <= 2
  {
    if b < 16 then [Digit(b as nat)] else [Digit((b / 16) as nat), Digit((b % 16) as nat)]
  }

  /** `s.padStart(width, fill)`. */
  function PadStart(s: string, width: nat, fill: char): (r: string)
    ensures |r| == if |s| >= width then |s| else width
    ensures r[|r| - |s|..] == s
    ensures forall i :: 0 <= i < |r| - |s| ==> r[i] == fill
  {
    if |s| >= width then s else seq(width - |s|, _ => fill) + s
  }

  /** One byte as two lowercase hexadecimal digits, high nibble first. */
  function ByteToHex(b: byte): (s: string)
    ensures s == [Digit((b / 16) as nat), Digit((b % 16) as nat)]
  {
    PadStart(ToBase16(b), 2, '0')
  }

  /** `bytes.map(b => b.toString(16).padStart(2, '0')).join('')`. */
  function Encode(bytes: seq<byte>): (s: string)
    ensures |s| == 2 * |bytes|
    ensures forall i :: 0 <= i < |s| ==> IsHexDigit(s[i])
  {
    if bytes == [] then "" else ByteToHex(bytes[0]) + Encode(bytes[1..])
  }

  /** Value of one lowercase hexadecimal digit. */
  function DigitValue(c: char): (r: Option<nat>)
    ensures r.Some? <==> IsHexDigit(c)
    ensures r.Some? ==> r.value < 16 && Digit(r.value) == c
  {
    if '0' <= c <= '9' then Some(c as int - '0' as int)
    else if 'a' <= c <= 'f' then Some(10 + c as int - 'a' as int)
    else None
  }

  /** Inverse of `Encode`: pairs of lowercase digits back to bytes. */
  function Decode(s: string): Option<seq<byte>>
  {
    if |s| == 0 then Some([])
    else if |s| == 1 then None
    else
      match (DigitValue(s[0]), DigitValue(s[1]), Decode(s[2..]))
      case (Some(hi), Some(lo), Some(rest)) => Some([(hi * 16 + lo) as byte] + rest)
      case _ => None
  }

  lemma DigitRoundTrip(d: nat)
    requires d < 16
    ensures DigitValue(Digit(d)) == Some(d)
  {
  }

  /** Decoding the text of any byte string gives that byte string back. */
  lemma {:induction false} DecodeEncode(bytes: seq<byte>)
    ensures Decode(Encode(bytes)) == Some(bytes)
  {
    if bytes != [] {
      var s := Encode(bytes);
      DigitRoundTrip((bytes[0] / 16) as nat);
      DigitRoundTrip((bytes[0] % 16) as nat);
      assert s[2..] == Encode(bytes[1..]);
      DecodeEncode(bytes[1..]);
      assert [bytes[0]] + bytes[1..] == bytes;
    }
  }

  /** Whatever decodes was written by `Encode`: lowercase, even-length text only. */
  lemma {:induction false} EncodeDecode(s: string, bytes: seq<byte>)
    requires Decode(s) == Some(bytes)
    ensures Encode(bytes) == s
  {
    if |s| >= 2 {
      var hi, lo := DigitValue(s[0]).value, DigitValue(s[1]).value;
      var rest := Decode(s[2..]).value;
      var b := (hi * 16 + lo) as byte;
      assert bytes == [b] + rest;
      assert b / 16 == hi as byte && b % 16 == lo as byte;
      EncodeDecode(s[2..], rest);
      assert bytes[1..] == rest;
      assert s == s[..2] + s[2..];
    }
  }

  /** Distinct digests never share a text, so comparing texts compares digests. */
  lemma EncodeInjective(a: seq<byte>, b: seq<byte>)
    requires Encode(a) == Encode(b)
    ensures a == b
  {
    DecodeEncode(a);
    DecodeEncode(b);
  }

  /**
   * The stored form of a password: the lowercase hexadecimal text of its digest, where `sha256`
   * stands for SHA-256 (FIPS 180-4) applied to the password's UTF-8 bytes.
   */
  function HashPassword(sha256: string -> seq<byte>, password: string): (h: string)
    ensures |h| == 2 * |sha256(password)|
    ensures |sha256(password)| == Sha256Length ==> |h| == 64
    ensures forall i :: 0 <= i < |h| ==> IsHexDigit(h[i])
    ensures Decode(h) == Some(sha256(password))
  {
    DecodeEncode(sha256(password));
    Encode(sha256(password))
  }

  /** Two passwords have the same stored text exactly when they have the same digest. */
  lemma SameHashSameDigest(sha256: string -> seq<byte>, a: string, b: string)
    ensures HashPassword(sha256, a) == HashPassword(sha256, b) <==> sha256(a) == sha256(b)
  {
    if HashPassword(sha256, a) == HashPassword(sha256, b) {
      EncodeInjective(sha256(a), sha256(b));
    }
  }
}
