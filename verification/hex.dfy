/**
 The random suffix of a renamed upload: four random bytes written as
 lowercase hexadecimal, two digits per byte, high nibble first (the
 rendering of Node's `Buffer.toString("hex")`). The bytes themselves are a
 parameter of the model, not drawn from a generator.
 */
module Hex {
  import opened Api

  newtype byte = x: int | 0 <= x < 256

  /** The result of `crypto.randomBytes(4)`. */
  datatype Bytes4 = Bytes4(b0: byte, b1: byte, b2: byte, b3: byte)

  const Digits: string := "0123456789abcdef"

  predicate IsLowerHexDigit(c: char) {
    ('0' <= c <= '9') || ('a' <= c <= 'f')
  }

  predicate IsLowerHex(s: string) {
    forall i :: 0 <= i < |s| ==> IsLowerHexDigit(s[i])
  }

  function DigitOf(n: int): (c: char)
    requires 0 <= n < 16
    ensures IsLowerHexDigit(c)
    ensures n < 10 ==> c as int == '0' as int + n
    ensures 10 <= n ==> c as int == 'a' as int + (n - 10)
  {
    Digits[n]
  }

  /** Inverse of `DigitOf` on lowercase digits. */
  function ValueOf(c: char): (n: int)
    requires IsLowerHexDigit(c)
    ensures 0 <= n < 16
    ensures DigitOf(n) == c
  {
    if c <= '9' then c as int - '0' as int else c as int - 'a' as int + 10
  }

  function ByteHex(b: byte): (s: string)
    ensures |s| == 2 && IsLowerHex(s)
  {
    [DigitOf(b as int / 16), DigitOf(b as int % 16)]
  }

  /** The eight-character suffix: the four bytes in order, two digits each. */
  function ToHex(r: Bytes4): (s: string)
    ensures |s| == 8 && IsLowerHex(s)
  {
    ByteHex(r.b0) + ByteHex(r.b1) + ByteHex(r.b2) + ByteHex(r.b3)
  }

  /** Reads two lowercase digits back as a byte. */
  function ParseByte(s: string): (r: Option<byte>)
    requires |s| == 2
    ensures r.Some? <==> IsLowerHex(s)
  {
    if IsLowerHexDigit(s[0]) && IsLowerHexDigit(s[1]) then
      Some((ValueOf(s[0]) * 16 + ValueOf(s[1])) as byte)
    else
      None
  }

  /** Reads an eight-digit lowercase suffix back as the four bytes it encodes. */
  function FromHex(s: string): (r: Option<Bytes4>)
    ensures r.Some? ==> |s| == 8 && IsLowerHex(s)
  {
    if |s| != 8 then None
    else
      match (ParseByte(s[0..2]), ParseByte(s[2..4]), ParseByte(s[4..6]), ParseByte(s[6..8]))
      case (Some(a), Some(b), Some(c), Some(d)) =>
        assert forall i | 0 <= i < 8 :: IsLowerHexDigit(s[i]) by {
          forall i | 0 <= i < 8 ensures IsLowerHexDigit(s[i]) {
            if i < 2 { assert s[i] == s[0..2][i]; }
            else if i < 4 { assert s[i] == s[2..4][i - 2]; }
            else if i < 6 { assert s[i] == s[4..6][i - 4]; }
            else { assert s[i] == s[6..8][i - 6]; }
          }
        }
        Some(Bytes4(a, b, c, d))
      case _ => None
  }

  lemma ParseByteHex(b: byte)
    ensures ParseByte(ByteHex(b)) == Some(b)
  {
    var s := ByteHex(b);
    assert ValueOf(s[0]) == b as int / 16;
    assert ValueOf(s[1]) == b as int % 16;
  }

  /** The suffix determines the bytes: reading it back gives them again. */
  lemma FromHexToHex(r: Bytes4)
    ensures FromHex(ToHex(r)) == Some(r)
  {
    var s := ToHex(r);
    assert s[0..2] == ByteHex(r.b0);
    assert s[2..4] == ByteHex(r.b1);
    assert s[4..6] == ByteHex(r.b2);
    assert s[6..8] == ByteHex(r.b3);
    ParseByteHex(r.b0);
    ParseByteHex(r.b1);
    ParseByteHex(r.b2);
    ParseByteHex(r.b3);
  }

  /** Distinct random bytes give distinct suffixes. */
  lemma ToHexInjective(r: Bytes4, r': Bytes4)
    ensures ToHex(r) == ToHex(r') ==> r == r'
  {
    FromHexToHex(r);
    FromHexToHex(r');
  }
}
