/** Hexadecimal and base64 text of byte strings, as Node's `Buffer` writes and
    reads them, with the URL-safe alphabet of RFC 4648 section 5. */
module Base64 {
  import opened Common

  type byte = b: int | 0 <= b < 256
  type sextet = v: int | 0 <= v < 64

  // ----- Hexadecimal -----------------------------------------------------------

  function HexDigit(d: int): char
    requires 0 <= d < 16
  {
    "0123456789abcdef"[d]
  }

  function HexValue(c: char): Option<int> {
    if '0' <= c <= '9' then Some(c as int - '0' as int)
    else if 'a' <= c <= 'f' then Some(c as int - 'a' as int + 10)
    else None
  }

  function HexByte(b: byte): string {
    [HexDigit(b / 16), HexDigit(b % 16)]
  }

  function Hex(bytes: seq<byte>): (hex: string)
    ensures |hex| == 2 * |bytes|
  {
    if bytes == [] then "" else HexByte(bytes[0]) + Hex(bytes[1..])
  }

  /** Decoding stops at the first pair that is not two hex digits. */
  function FromHex(hex: string): seq<byte> {
    if |hex| < 2 then []
    else match (HexValue(hex[0]), HexValue(hex[1]))
         case (Some(h), Some(l)) =>
           if 0 <= h < 16 && 0 <= l < 16 then [16 * h + l] + FromHex(hex[2..]) else []
         case _ => []
  }

  lemma HexDigitRoundTrip(d: int)
    requires 0 <= d < 16
    ensures HexValue(HexDigit(d)) == Some(d)
  {
  }

  lemma {:induction false} HexRoundTrip(bytes: seq<byte>)
    ensures FromHex(Hex(bytes)) == bytes
  {
    if bytes != [] {
      HexRoundTrip(bytes[1..]);
      var hex := Hex(bytes);
      assert hex[2..] == Hex(bytes[1..]);
      HexDigitRoundTrip(bytes[0] / 16);
      HexDigitRoundTrip(bytes[0] % 16);
    }
  }

  lemma {:induction false} HexOfConcat(a: seq<byte>, b: seq<byte>)
    ensures Hex(a + b) == Hex(a) + Hex(b)
  {
    hide HexByte;
    if a == [] {
      assert a + b == b;
    } else {
      HexOfConcat(a[1..], b);
      assert (a + b)[1..] == a[1..] + b && (a + b)[0] == a[0];
      assert Hex(a + b) == HexByte(a[0]) + (Hex(a[1..]) + Hex(b));
    }
  }

  // ----- Base64 ----------------------------------------------------------------

  function Letter(v: sextet): char {
    if v < 26 then (v + 'A' as int) as char
    else if v < 52 then (v - 26 + 'a' as int) as char
    else if v < 62 then (v - 52 + '0' as int) as char
    else if v == 62 then '+' else '/'
  }

  /** Both alphabets are read; any other character is skipped. */
  function LetterValue(c: char): Option<sextet> {
    if 'A' <= c <= 'Z' then Some(c as int - 'A' as int)
    else if 'a' <= c <= 'z' then Some(c as int - 'a' as int + 26)
    else if '0' <= c <= '9' then Some(c as int - '0' as int + 52)
    else if c == '+' || c == '-' then Some(62)
    else if c == '/' || c == '_' then Some(63)
    else None
  }

  function Sextets(bytes: seq<byte>): seq<sextet> {
    if |bytes| == 0 then []
    else if |bytes| == 1 then [bytes[0] / 4, bytes[0] % 4 * 16]
    else if |bytes| == 2 then [bytes[0] / 4, bytes[0] % 4 * 16 + bytes[1] / 16, bytes[1] % 16 * 4]
    else [bytes[0] / 4, bytes[0] % 4 * 16 + bytes[1] / 16, bytes[1] % 16 * 4 + bytes[2] / 64, bytes[2] % 64]
         + Sextets(bytes[3..])
  }

  function High(a: sextet, b: sextet): byte {
    (a as int) * 4 + (b as int) / 16
  }

  function Middle(b: sextet, c: sextet): byte {
    (b as int) % 16 * 16 + (c as int) / 4
  }

  function Low(c: sextet, d: sextet): byte {
    (c as int) % 4 * 64 + (d as int)
  }

  function FromSextets(vs: seq<sextet>): seq<byte> {
    if |vs| < 2 then []
    else if |vs| == 2 then [High(vs[0], vs[1])]
    else if |vs| == 3 then [High(vs[0], vs[1]), Middle(vs[1], vs[2])]
    else [High(vs[0], vs[1]), Middle(vs[1], vs[2]), Low(vs[2], vs[3])] + FromSextets(vs[4..])
  }

  function Letters(vs: seq<sextet>): string {
    if vs == [] then "" else [Letter(vs[0])] + Letters(vs[1..])
  }

  function LetterValues(text: string): seq<sextet> {
    if text == "" then []
    else (if LetterValue(text[0]).Some? then [LetterValue(text[0]).value] else []) + LetterValues(text[1..])
  }

  function Padding(n: nat): string {
    if n % 3 == 1 then "==" else if n % 3 == 2 then "=" else ""
  }

  function Encode(bytes: seq<byte>): string {
    Letters(Sextets(bytes)) + Padding(|bytes|)
  }

  function Decode(text: string): seq<byte> {
    FromSextets(LetterValues(text))
  }

  /** `base64urlToBase64`, the two replacements at once. */
  function UrlToBase64(text: string): string {
    if text == "" then ""
    else [if text[0] == '-' then '+' else if text[0] == '_' then '/' else text[0]] + UrlToBase64(text[1..])
  }

  function UrlLetters(vs: seq<sextet>): string {
    if vs == [] then ""
    else [if vs[0] == 62 then '-' else if vs[0] == 63 then '_' else Letter(vs[0])] + UrlLetters(vs[1..])
  }

  /** The unpadded URL-safe text a JWK carries. */
  function EncodeUrl(bytes: seq<byte>): string {
    UrlLetters(Sextets(bytes))
  }

  lemma GroupRoundTrip(a: byte, b: byte, c: byte)
    ensures High(a / 4, a % 4 * 16 + b / 16) == a
    ensures Middle(a % 4 * 16 + b / 16, b % 16 * 4 + c / 64) == b
    ensures Low(b % 16 * 4 + c / 64, c % 64) == c
  {
  }

  lemma NothingRoundTrip()
    ensures FromSextets([]) == []
  {
  }

  lemma OneByteRoundTrip(a: byte)
    ensures FromSextets([a / 4, a % 4 * 16]) == [a]
  {
    GroupRoundTrip(a, 0, 0);
    hide High, Middle, Low;
    assert a % 4 * 16 + 0 / 16 == a % 4 * 16;
  }

  lemma TwoByteRoundTrip(a: byte, b: byte)
    ensures FromSextets([a / 4, a % 4 * 16 + b / 16, b % 16 * 4]) == [a, b]
  {
    GroupRoundTrip(a, b, 0);
    hide High, Middle, Low;
    assert b % 16 * 4 + 0 / 64 == b % 16 * 4;
  }

  lemma GroupThenRest(a: byte, b: byte, c: byte, rest: seq<sextet>)
    ensures FromSextets([a / 4, a % 4 * 16 + b / 16, b % 16 * 4 + c / 64, c % 64] + rest) == [a, b, c] + FromSextets(rest)
  {
    GroupRoundTrip(a, b, c);
    hide High, Middle, Low;
    assert ([a / 4, a % 4 * 16 + b / 16, b % 16 * 4 + c / 64, c % 64] + rest)[4..] == rest;
  }

  lemma {:induction false} SextetsRoundTrip(bytes: seq<byte>)
    ensures FromSextets(Sextets(bytes)) == bytes
  {
    hide FromSextets;
    if |bytes| == 0 {
      NothingRoundTrip();
    } else if |bytes| == 1 {
      OneByteRoundTrip(bytes[0]);
    } else if |bytes| == 2 {
      TwoByteRoundTrip(bytes[0], bytes[1]);
    } else {
      SextetsRoundTrip(bytes[3..]);
      GroupThenRest(bytes[0], bytes[1], bytes[2], Sextets(bytes[3..]));
      assert bytes == [bytes[0], bytes[1], bytes[2]] + bytes[3..];
    }
  }

  /** The letters are those of table 1 of RFC 4648. */
  lemma LetterIsOfTable(v: sextet)
    ensures v < 26 ==> Letter(v) == "ABCDEFGHIJKLMNOPQRSTUVWXYZ"[v]
    ensures 26 <= v < 52 ==> Letter(v) == "abcdefghijklmnopqrstuvwxyz"[v - 26]
    ensures 52 <= v ==> Letter(v) == "0123456789+/"[v - 52]
  {
    if v < 26 {
      UpperCase(v);
    } else if v < 52 {
      LowerCase(v - 26);
    }
  }

  lemma UpperCase(k: nat)
    requires k < 26
    ensures "ABCDEFGHIJKLMNOPQRSTUVWXYZ"[k] == (k + 'A' as int) as char
  {
    var s := "ABCDEFGHIJKLMNOPQRSTUVWXYZ";
    if k < 13 {
      assert s[..13] == "ABCDEFGHIJKLM";
    } else {
      assert s[13..] == "NOPQRSTUVWXYZ" && s[13..][k - 13] == s[k];
    }
  }

  lemma LowerCase(k: nat)
    requires k < 26
    ensures "abcdefghijklmnopqrstuvwxyz"[k] == (k + 'a' as int) as char
  {
    var s := "abcdefghijklmnopqrstuvwxyz";
    if k < 13 {
      assert s[..13] == "abcdefghijklm";
    } else {
      assert s[13..] == "nopqrstuvwxyz" && s[13..][k - 13] == s[k];
    }
  }

  lemma LetterRoundTrip(v: sextet)
    ensures LetterValue(Letter(v)) == Some(v)
  {
  }

  lemma {:induction false} LettersRoundTrip(vs: seq<sextet>, tail: string)
    requires forall i :: 0 <= i < |tail| ==> LetterValue(tail[i]).None?
    ensures LetterValues(Letters(vs) + tail) == vs
  {
    if vs == [] {
      assert Letters(vs) + tail == tail;
      if tail != "" {
        LettersRoundTrip(vs, tail[1..]);
        assert Letters(vs) + tail[1..] == tail[1..];
      }
    } else {
      LetterRoundTrip(vs[0]);
      LettersRoundTrip(vs[1..], tail);
      assert (Letters(vs) + tail)[1..] == Letters(vs[1..]) + tail;
    }
  }

  lemma {:induction false} UrlLettersBecomeLetters(vs: seq<sextet>)
    ensures UrlToBase64(UrlLetters(vs)) == Letters(vs)
  {
    if vs != [] {
      UrlLettersBecomeLetters(vs[1..]);
      assert UrlLetters(vs)[1..] == UrlLetters(vs[1..]);
    }
  }

  /** Decoding undoes encoding, padded or URL-safe and unpadded. */
  lemma Base64RoundTrip(bytes: seq<byte>)
    ensures Decode(Encode(bytes)) == bytes
    ensures Decode(UrlToBase64(EncodeUrl(bytes))) == bytes
  {
    SextetsRoundTrip(bytes);
    LettersRoundTrip(Sextets(bytes), Padding(|bytes|));
    LettersRoundTrip(Sextets(bytes), "");
    UrlLettersBecomeLetters(Sextets(bytes));
    assert Letters(Sextets(bytes)) + "" == Letters(Sextets(bytes));
  }

  lemma {:induction false} SextetsLength(bytes: seq<byte>)
    ensures |Sextets(bytes)| + |Padding(|bytes|)| == (|bytes| + 2) / 3 * 4
  {
    if |bytes| >= 3 {
      SextetsLength(bytes[3..]);
      ThreeMore(|bytes|);
      assert |Sextets(bytes)| == 4 + |Sextets(bytes[3..])|;
      assert |bytes[3..]| == |bytes| - 3;
    } else {
      assert |bytes| == 0 || |bytes| == 1 || |bytes| == 2;
      assert |Sextets(bytes)| + |Padding(|bytes|)| == (if bytes == [] then 0 else 4);
    }
  }

  lemma ThreeMore(n: nat)
    requires n >= 3
    ensures Padding(n) == Padding(n - 3) && (n + 2) / 3 * 4 == 4 + (n - 1) / 3 * 4
  {
  }

  lemma {:induction false} LettersLength(vs: seq<sextet>)
    ensures |Letters(vs)| == |vs|
  {
    if vs != [] {
      LettersLength(vs[1..]);
    }
  }

  /** Every three bytes, or what is left, take four characters. */
  lemma EncodedLength(bytes: seq<byte>)
    ensures |Encode(bytes)| == (|bytes| + 2) / 3 * 4
  {
    SextetsLength(bytes);
    LettersLength(Sextets(bytes));
  }

  /** Encoded text never contains a line break. */
  lemma {:induction false} LettersHaveNoBreaks(vs: seq<sextet>)
    ensures '\n' !in Letters(vs)
  {
    if vs != [] {
      LettersHaveNoBreaks(vs[1..]);
    }
  }
}
