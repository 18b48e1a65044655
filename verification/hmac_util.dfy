/** `HmacUtil.sha256Hex`: the HMAC-SHA256 tag of a string under a string
    secret, both UTF-8 encoded, written out as lowercase hexadecimal
    (Base16 of section 8 of RFC 4648, lowercase alphabet). The MAC itself
    (section 2 of RFC 2104 over SHA-256 of FIPS 180-4) is a parameter; the
    encodings around it are modelled. */
module Hmac {
  import opened Wrappers

  /** An octet. Java's `byte` is signed, but `%02x` prints a negative byte
      as its value plus 256, so the unsigned reading is the one that matters. */
  newtype byte = x: int | 0 <= x < 256

  /** An HMAC-SHA256 tag is 32 octets. */
  type Digest = d: seq<byte> | |d| == 32 witness seq(32, i => 0 as byte)

  /** The JCA `HmacSHA256` primitive: key octets, message octets, tag. */
  type Mac = (seq<byte>, seq<byte>) -> Digest

  // ---------------------------------------------------------------------
  // UTF-8 (String.getBytes(StandardCharsets.UTF_8))
  // ---------------------------------------------------------------------

  /** The UTF-8 encoding of one Unicode scalar value: one to four octets,
      a lead octet that announces the length, then continuation octets
      10xxxxxx. */
  function Utf8Char(c: char): (r: seq<byte>)
    ensures 1 <= |r| <= 4
    ensures |r| == 1 <==> c as int < 0x80
    ensures |r| == 1 ==> r[0] as int == c as int
    ensures |r| == 2 ==> 0xC0 <= r[0] < 0xE0
    ensures |r| == 3 ==> 0xE0 <= r[0] < 0xF0
    ensures |r| == 4 ==> 0xF0 <= r[0] < 0xF8
    ensures forall i | 1 <= i < |r| :: 0x80 <= r[i] < 0xC0
  {
    var n := c as int;
    if n < 0x80 then [n as byte]
    else if n < 0x800 then [(0xC0 + n / 64) as byte, (0x80 + n % 64) as byte]
    else if n < 0x1_0000 then
      [(0xE0 + n / 4096) as byte, (0x80 + (n / 64) % 64) as byte, (0x80 + n % 64) as byte]
    else
      [(0xF0 + n / 262144) as byte, (0x80 + (n / 4096) % 64) as byte,
       (0x80 + (n / 64) % 64) as byte, (0x80 + n % 64) as byte]
  }

  /** The UTF-8 encoding of a string, character by character. */
  function Utf8(s: string): (r: seq<byte>)
    ensures |s| <= |r| <= 4 * |s|
  {
    if s == [] then [] else Utf8Char(s[0]) + Utf8(s[1..])
  }

  /** Encoding distributes over concatenation. */
  lemma {:induction false} Utf8Append(a: string, b: string)
    ensures Utf8(a + b) == Utf8(a) + Utf8(b)
  {
    if a == [] {
      assert a + b == b;
    } else {
      assert (a + b)[1..] == a[1..] + b;
      Utf8Append(a[1..], b);
    }
  }

  /** An ASCII-only string encodes to its own code points, one octet each. */
  lemma {:induction false} Utf8Ascii(s: string)
    requires forall i | 0 <= i < |s| :: s[i] as int < 0x80
    ensures |Utf8(s)| == |s|
    ensures forall i | 0 <= i < |s| :: Utf8(s)[i] as int == s[i] as int
  {
    if s != [] {
      Utf8Ascii(s[1..]);
    }
  }

  // ---------------------------------------------------------------------
  // Lowercase hexadecimal
  // ---------------------------------------------------------------------

  /** The lowercase digit for a nibble, as `%x` writes it. */
  function HexDigit(v: int): (c: char)
    requires 0 <= v < 16
  {
    if v < 10 then ('0' as int + v) as char else ('a' as int + v - 10) as char
  }

  predicate IsLowerHexDigit(c: char) {
    '0' <= c <= '9' || 'a' <= c <= 'f'
  }

  /** The value of one lowercase hexadecimal digit. */
  function HexValue(c: char): (v: int)
    requires IsLowerHexDigit(c)
    ensures 0 <= v < 16 && HexDigit(v) == c
  {
    if c <= '9' then c as int - '0' as int else c as int - 'a' as int + 10
  }

  /** `String.format("%02x", b)`: two lowercase digits, high nibble first. */
  function HexByte(b: byte): (r: string)
    ensures |r| == 2 && IsLowerHexDigit(r[0]) && IsLowerHexDigit(r[1])
    ensures HexValue(r[0]) * 16 + HexValue(r[1]) == b as int
  {
    [HexDigit(b as int / 16), HexDigit(b as int % 16)]
  }

  /** The hexadecimal rendering of an octet string, built the way the
      `StringBuilder` loop builds it: the previous text, then two digits. */
  function HexEncode(bs: seq<byte>): (r: string)
    ensures |r| == 2 * |bs|
    ensures forall i | 0 <= i < |r| :: IsLowerHexDigit(r[i])
  {
    if bs == [] then "" else HexEncode(bs[..|bs| - 1]) + HexByte(bs[|bs| - 1])
  }

  /** Characters 2i and 2i+1 of the rendering are the two digits of octet i. */
  lemma {:induction false} HexEncodeAt(bs: seq<byte>, i: int)
    requires 0 <= i < |bs|
    ensures HexEncode(bs)[2 * i] == HexByte(bs[i])[0]
    ensures HexEncode(bs)[2 * i + 1] == HexByte(bs[i])[1]
  {
    if i < |bs| - 1 {
      var init := bs[..|bs| - 1];
      HexEncodeAt(init, i);
      assert HexEncode(bs) == HexEncode(init) + HexByte(bs[|bs| - 1]);
    }
  }

  /** Reading a lowercase hexadecimal string back into octets; `None` for
      odd length or a character outside 0-9a-f. */
  function HexDecode(s: string): (r: Option<seq<byte>>)
    ensures r.Some? ==> 2 * |r.value| == |s|
  {
    if s == [] then Some([])
    else if |s| == 1 then None
    else
      var hi, lo := s[|s| - 2], s[|s| - 1];
      if !IsLowerHexDigit(hi) || !IsLowerHexDigit(lo) then None
      else match HexDecode(s[..|s| - 2])
        case None => None
        case Some(prefix) => Some(prefix + [(HexValue(hi) * 16 + HexValue(lo)) as byte])
  }

  /** Decoding the rendering gives back the octets. */
  lemma {:induction false} HexRoundTrip(bs: seq<byte>)
    ensures HexDecode(HexEncode(bs)) == Some(bs)
  {
    if bs != [] {
      var init := bs[..|bs| - 1];
      var s := HexEncode(bs);
      assert s == HexEncode(init) + HexByte(bs[|bs| - 1]);
      assert s[..|s| - 2] == HexEncode(init);
      HexRoundTrip(init);
      assert init + [bs[|bs| - 1]] == bs;
    }
  }

  /** Different octet strings render differently. */
  lemma HexEncodeInjective(a: seq<byte>, b: seq<byte>)
    requires HexEncode(a) == HexEncode(b)
    ensures a == b
  {
    HexRoundTrip(a);
    HexRoundTrip(b);
  }

  // ---------------------------------------------------------------------
  // sha256Hex
  // ---------------------------------------------------------------------

  /** What `sha256Hex(data, secret)` returns or throws. `SecretKeySpec`
      refuses an empty key with an `IllegalArgumentException`, which the
      utility rethrows wrapped in a `RuntimeException`. */
  function HmacSha256Hex(mac: Mac, data: string, secret: string): (r: Result<string, Exception>)
    ensures r.Failure? <==> secret == ""
    ensures r.Success? ==> |r.value| == 64
    ensures r.Success? ==> forall i | 0 <= i < 64 :: IsLowerHexDigit(r.value[i])
    ensures r.Success? ==> HexDecode(r.value) == Some(mac(Utf8(secret), Utf8(data)))
  {
    var key := Utf8(secret);
    if key == [] then Failure(Wrapped(IllegalArgument("Empty key")))
    else
      var tag := mac(key, Utf8(data));
      HexRoundTrip(tag);
      Success(HexEncode(tag))
  }

  /** `HmacUtil.sha256Hex`: the MAC, then the `StringBuilder` loop that
      appends two hex digits per tag octet. */
  method Sha256Hex(data: string, secret: string, mac: Mac) returns (r: Result<string, Exception>)
    ensures r == HmacSha256Hex(mac, data, secret)
  {
    var key := Utf8(secret);
    if |key| == 0 {
      return Failure(Wrapped(IllegalArgument("Empty key")));
    }
    var hash := mac(key, Utf8(data));
    var sb := "";
    for i := 0 to |hash|
      invariant sb == HexEncode(hash[..i])
    {
      assert hash[..i + 1][..i] == hash[..i];
      sb := sb + HexByte(hash[i]);
    }
    assert hash[..|hash|] == hash;
    return Success(sb);
  }
}
