/** `jwkToPem`: a JSON Web Key's modulus and exponent as a PEM-wrapped DER
    RSAPublicKey, against a reader of DER (ITU-T X.690 sections 8.1.3 and 10.1)
    and of the RSAPublicKey structure (RFC 8017 appendix A.1.1). */
module Der {
  import opened Common
  import opened Base64

  // ----- The reader --------------------------------------------------------------

  function UnsignedValue(octets: seq<byte>): nat {
    if octets == [] then 0 else UnsignedValue(octets[..|octets| - 1]) * 256 + octets[|octets| - 1]
  }

  /** The value of an INTEGER's content octets: two's complement. */
  function IntegerValue(octets: seq<byte>): int {
    if octets == [] then 0
    else if |octets| == 1 then (if octets[0] < 0x80 then octets[0] else octets[0] - 256)
    else IntegerValue(octets[..|octets| - 1]) * 256 + octets[|octets| - 1]
  }

  /** A definite length in its shortest form, and what follows it. */
  function ReadLength(bytes: seq<byte>): Option<(nat, seq<byte>)> {
    if bytes == [] then None
    else if bytes[0] < 0x80 then Some((bytes[0], bytes[1..]))
    else
      var k := bytes[0] - 0x80;
      if k == 0 || k == 0x7f || |bytes| < 1 + k then None
      else
        var n := UnsignedValue(bytes[1..1 + k]);
        if bytes[1] == 0 || n < 0x80 then None else Some((n, bytes[1 + k..]))
  }

  function ReadTlv(tag: byte, bytes: seq<byte>): Option<(seq<byte>, seq<byte>)> {
    if bytes == [] || bytes[0] != tag then None
    else match ReadLength(bytes[1..])
         case None => None
         case Some((n, rest)) => if |rest| < n then None else Some((rest[..n], rest[n..]))
  }

  datatype RsaPublicKey = RsaPublicKey(modulus: seq<byte>, exponent: seq<byte>)

  /** One SEQUENCE (identifier octet 0x30) of exactly two INTEGERs (0x02), with
      nothing left over. */
  function ReadRsaPublicKey(der: seq<byte>): Option<RsaPublicKey> {
    match ReadTlv(0x30, der)
    case None => None
    case Some((inner, rest)) =>
      if rest != [] then None
      else match ReadTlv(0x02, inner)
           case None => None
           case Some((n, afterN)) =>
             match ReadTlv(0x02, afterN)
             case None => None
             case Some((e, afterE)) => if afterE != [] then None else Some(RsaPublicKey(n, e))
  }

  function WithoutBreaks(text: string): string {
    if text == "" then ""
    else (if text[0] == '\n' then "" else [text[0]]) + WithoutBreaks(text[1..])
  }

  /** The base64 text between the boundary lines of such a key. */
  function PemBody(pem: string): Option<string> {
    var h, f := "-----BEGIN RSA PUBLIC KEY-----\n", "\n-----END RSA PUBLIC KEY-----";
    if |h| + |f| <= |pem| && pem[..|h|] == h && pem[|pem| - |f|..] == f
    then Some(pem[|h|..|pem| - |f|]) else None
  }

  function ReadPem(pem: string): Option<RsaPublicKey> {
    match PemBody(pem)
    case None => None
    case Some(body) => ReadRsaPublicKey(Decode(WithoutBreaks(body)))
  }

  // ----- The writer --------------------------------------------------------------

  const SEQUENCE_TAG: byte := 0x30
  const INTEGER_TAG: byte := 0x02
  const HEADER := "-----BEGIN RSA PUBLIC KEY-----"
  const FOOTER := "-----END RSA PUBLIC KEY-----"

  function BigEndian(n: nat): seq<byte> {
    if n == 0 then [] else BigEndian(n / 256) + [n % 256]
  }

  function LengthOctets(n: nat): seq<byte>
    requires n < 0x8000_0000
  {
    if n < 0x80 then [n]
    else
      BigEndianSize(n);
      [0x80 + |BigEndian(n)|] + BigEndian(n)
  }

  function Tlv(tag: byte, content: seq<byte>): seq<byte>
    requires |content| < 0x8000_0000
  {
    [tag] + LengthOctets(|content|) + content
  }

  lemma BigEndianStep(n: nat)
    requires n > 0
    ensures |BigEndian(n)| == 1 + |BigEndian(n / 256)|
    ensures BigEndian(n)[0] == if n < 256 then n else BigEndian(n / 256)[0]
  {
  }

  /** A positive 31-bit length takes one to four octets. */
  lemma BigEndianSize(n: nat)
    requires 0 < n < 0x8000_0000
    ensures 1 <= |BigEndian(n)| <= 4
  {
    BigEndianStep(n);
    if n >= 0x100 {
      BigEndianStep(n / 0x100);
      if n >= 0x1_0000 {
        BigEndianStep(n / 0x100 / 0x100);
        if n >= 0x100_0000 {
          BigEndianStep(n / 0x100 / 0x100 / 0x100);
        }
      }
    }
  }

  lemma {:induction false} BigEndianHead(n: nat)
    requires n > 0
    ensures BigEndian(n) != [] && BigEndian(n)[0] != 0
  {
    if n >= 256 {
      BigEndianHead(n / 256);
    }
  }

  lemma {:induction false} BigEndianValue(n: nat)
    ensures UnsignedValue(BigEndian(n)) == n
  {
    if n > 0 {
      BigEndianValue(n / 256);
      assert BigEndian(n)[..|BigEndian(n)| - 1] == BigEndian(n / 256);
    }
  }

  /** Lengths are written in shortest form, so the reader takes them back. */
  lemma LengthRoundTrip(n: nat, rest: seq<byte>)
    requires n < 0x8000_0000
    ensures ReadLength(LengthOctets(n) + rest) == Some((n, rest))
  {
    var octets := LengthOctets(n);
    if n >= 0x80 {
      BigEndianSize(n);
      BigEndianHead(n);
      BigEndianValue(n);
      var k := |BigEndian(n)|;
      assert (octets + rest)[1..1 + k] == BigEndian(n);
      assert (octets + rest)[1 + k..] == rest;
    } else {
      assert (octets + rest)[1..] == rest;
    }
  }

  lemma TlvRoundTrip(tag: byte, content: seq<byte>, rest: seq<byte>)
    requires |content| < 0x8000_0000
    ensures ReadTlv(tag, Tlv(tag, content) + rest) == Some((content, rest))
  {
    var bytes := Tlv(tag, content) + rest;
    assert bytes[1..] == LengthOctets(|content|) + (content + rest);
    LengthRoundTrip(|content|, content + rest);
    assert (content + rest)[..|content|] == content && (content + rest)[|content|..] == rest;
  }

  function Inner(n: seq<byte>, e: seq<byte>): seq<byte>
    requires |n| < 0x8000_0000 && |e| < 0x8000_0000
  {
    Tlv(INTEGER_TAG, n) + Tlv(INTEGER_TAG, e)
  }

  /** The key's total size stays below 2^31 octets; V8 strings are far shorter. */
  predicate Encodable(n: seq<byte>, e: seq<byte>) {
    |n| < 0x8000_0000 && |e| < 0x8000_0000 && |Inner(n, e)| < 0x8000_0000
  }

  function RsaDer(n: seq<byte>, e: seq<byte>): seq<byte>
    requires Encodable(n, e)
  {
    Tlv(SEQUENCE_TAG, Inner(n, e))
  }

  lemma DerRoundTrip(n: seq<byte>, e: seq<byte>)
    requires Encodable(n, e)
    ensures ReadRsaPublicKey(RsaDer(n, e)) == Some(RsaPublicKey(n, e))
  {
    assert RsaDer(n, e) + [] == RsaDer(n, e);
    TlvRoundTrip(SEQUENCE_TAG, Inner(n, e), []);
    TlvRoundTrip(INTEGER_TAG, n, Tlv(INTEGER_TAG, e));
    assert Tlv(INTEGER_TAG, e) + [] == Tlv(INTEGER_TAG, e);
    TlvRoundTrip(INTEGER_TAG, e, []);
  }

  /** The octets themselves: 0x30, a length, and twice 0x02, a length and the content. */
  lemma KeyOctets(n: seq<byte>, e: seq<byte>)
    requires Encodable(n, e)
    ensures var inner := [0x02] + LengthOctets(|n|) + n + ([0x02] + LengthOctets(|e|) + e);
            |inner| < 0x8000_0000 && RsaDer(n, e) == [0x30] + LengthOctets(|inner|) + inner
  {
  }

  /** No 0x00 pad octet is written, so the INTEGER read back equals the unsigned
      modulus if and only if the modulus does not start with a set bit. */
  lemma {:induction false} SignReadsRightIff(octets: seq<byte>)
    requires octets != []
    ensures IntegerValue(octets) == UnsignedValue(octets) <==> octets[0] < 0x80
    ensures octets[0] >= 0x80 ==> IntegerValue(octets) < 0
  {
    var front := octets[..|octets| - 1];
    if front != [] {
      SignReadsRightIff(front);
    } else {
      assert UnsignedValue(front) == 0;
    }
  }

  // ----- Lines ---------------------------------------------------------------------

  function Lines(text: string): seq<string> {
    if text == "" then []
    else if |text| <= 64 then [text]
    else [text[..64]] + Lines(text[64..])
  }

  function Join(lines: seq<string>): string {
    if lines == [] then ""
    else if |lines| == 1 then lines[0]
    else lines[0] + "\n" + Join(lines[1..])
  }

  function Pem(n: seq<byte>, e: seq<byte>): string
    requires Encodable(n, e)
  {
    HEADER + "\n" + Join(Lines(Encode(RsaDer(n, e)))) + "\n" + FOOTER
  }

  lemma {:induction false} WithoutBreaksConcat(a: string, b: string)
    ensures WithoutBreaks(a + b) == WithoutBreaks(a) + WithoutBreaks(b)
  {
    if a == "" {
      assert a + b == b;
    } else {
      WithoutBreaksConcat(a[1..], b);
      assert (a + b)[1..] == a[1..] + b && (a + b)[0] == a[0];
      var first := if a[0] == '\n' then "" else [a[0]];
      assert first + (WithoutBreaks(a[1..]) + WithoutBreaks(b)) == first + WithoutBreaks(a[1..]) + WithoutBreaks(b);
    }
  }

  lemma {:induction false} NothingToDrop(a: string)
    requires '\n' !in a
    ensures WithoutBreaks(a) == a
  {
    if a != "" {
      NothingToDrop(a[1..]);
      assert a == [a[0]] + a[1..];
    }
  }

  lemma {:induction false} LineLengths(text: string)
    ensures forall i :: 0 <= i < |Lines(text)| ==> 1 <= |Lines(text)[i]| <= 64
                                                   && (i + 1 < |Lines(text)| ==> |Lines(text)[i]| == 64)
  {
    if |text| > 64 {
      LineLengths(text[64..]);
      assert Lines(text) == [text[..64]] + Lines(text[64..]);
    }
  }

  lemma JoinMore(head: string, rest: seq<string>)
    requires rest != []
    ensures Join([head] + rest) == head + "\n" + Join(rest)
  {
    assert ([head] + rest)[1..] == rest;
  }

  lemma BreakDrops()
    ensures WithoutBreaks("\n") == ""
  {
    assert "\n"[1..] == "";
  }

  /** A line and its break drop to the line. */
  lemma LineThenRest(head: string, lineBreak: string, rest: string)
    requires '\n' !in head && WithoutBreaks(lineBreak) == ""
    ensures WithoutBreaks(head + lineBreak + rest) == head + WithoutBreaks(rest)
  {
    hide WithoutBreaks;
    NothingToDrop(head);
    WithoutBreaksConcat(head + lineBreak, rest);
    WithoutBreaksConcat(head, lineBreak);
  }

  /** Joining the lines gives the text back; each is full but the last. */
  lemma {:induction false} LinesRoundTrip(text: string)
    requires '\n' !in text
    ensures WithoutBreaks(Join(Lines(text))) == text
    ensures forall i :: 0 <= i < |Lines(text)| ==> 1 <= |Lines(text)[i]| <= 64
                                                   && (i + 1 < |Lines(text)| ==> |Lines(text)[i]| == 64)
  {
    LineLengths(text);
    NothingToDrop(text);
    if |text| > 64 {
      var head, tail := text[..64], text[64..];
      LinesRoundTrip(tail);
      JoinMore(head, Lines(tail));
      BreakDrops();
      LineThenRest(head, "\n", Join(Lines(tail)));
      hide WithoutBreaks, Join;
      assert text == head + tail;
    }
  }

  /** The text itself: the literal boundary lines around lines of base64. */
  lemma {:induction false} PemText(n: seq<byte>, e: seq<byte>)
    requires Encodable(n, e)
    ensures Pem(n, e) == "-----BEGIN RSA PUBLIC KEY-----\n" + Join(Lines(Encode(RsaDer(n, e)))) + "\n-----END RSA PUBLIC KEY-----"
  {
    hide Join, Lines, Encode, RsaDer;
    assert HEADER + "\n" == "-----BEGIN RSA PUBLIC KEY-----\n" && "\n" + FOOTER == "\n-----END RSA PUBLIC KEY-----";
  }

  /** The PEM text of any key reads back as exactly its two octet strings. */
  lemma PemRoundTrip(n: seq<byte>, e: seq<byte>)
    requires Encodable(n, e)
    ensures ReadPem(Pem(n, e)) == Some(RsaPublicKey(n, e))
  {
    var text := Encode(RsaDer(n, e));
    var body := Join(Lines(text));
    LettersHaveNoBreaks(Sextets(RsaDer(n, e)));
    LinesRoundTrip(text);
    Base64RoundTrip(RsaDer(n, e));
    DerRoundTrip(n, e);
    PemBodyOf(body);
  }

  lemma PemBodyOf(body: string)
    ensures PemBody(HEADER + "\n" + body + "\n" + FOOTER) == Some(body)
  {
    var h, f := "-----BEGIN RSA PUBLIC KEY-----\n", "\n-----END RSA PUBLIC KEY-----";
    assert h == HEADER + "\n" && f == "\n" + FOOTER;
    var pem := HEADER + "\n" + body + "\n" + FOOTER;
    assert pem == h + body + f;
    assert pem[..|h|] == h && pem[|h|..|pem| - |f|] == body && pem[|pem| - |f|..] == f;
  }

  // ----- The code --------------------------------------------------------------------

  /** `temp >>= 8` works on the low 32 bits read as a signed number. */
  function ShiftRight8(x: int): int {
    var low := x % 0x1_0000_0000;
    (if low < 0x8000_0000 then low else low - 0x1_0000_0000) / 256
  }

  lemma ShiftDivides(x: int)
    requires 0 <= x < 0x8000_0000
    ensures ShiftRight8(x) == x / 256
  {
  }

  lemma {:induction false} MoveLastByte(temp: nat, bytes: seq<byte>)
    requires temp > 0
    ensures BigEndian(temp / 256) + ([temp % 256] + bytes) == BigEndian(temp) + bytes
  {
    var front := BigEndian(temp / 256);
    assert BigEndian(temp) == front + [temp % 256];
    assert front + ([temp % 256] + bytes) == (front + [temp % 256]) + bytes;
  }

  lemma HexOfLongLength(n: nat)
    requires 0x80 <= n < 0x8000_0000
    ensures 1 <= |BigEndian(n)| <= 4
    ensures HexByte(0x80 + |BigEndian(n)|) + Hex(BigEndian(n)) == Hex(LengthOctets(n))
  {
    BigEndianSize(n);
    HexOfConcat([0x80 + |BigEndian(n)|], BigEndian(n));
    HexOfOne(0x80 + |BigEndian(n)|);
  }

  lemma HexOfOne(b: byte)
    ensures Hex([b]) == HexByte(b)
  {
    assert Hex([b]) == HexByte(b) + Hex([]);
  }

  method LengthToHex(hex: string, ghost content: seq<byte>) returns (r: string)
    requires hex == Hex(content) && |content| < 0x8000_0000
    ensures r == Hex(LengthOctets(|content|))
  {
    var length := |hex| / 2;
    assert length == |content|;
    if length < 0x80 {
      HexOfOne(length);
      return HexByte(length);
    }
    var lengthBytes: seq<byte> := [];
    var temp := length;
    while temp > 0
      invariant 0 <= temp < 0x8000_0000
      invariant BigEndian(temp) + lengthBytes == BigEndian(length)
      decreases temp
    {
      MoveLastByte(temp, lengthBytes);
      ShiftDivides(temp);
      lengthBytes := [temp % 256] + lengthBytes;
      temp := ShiftRight8(temp);
    }
    assert lengthBytes == BigEndian(length);
    HexOfLongLength(length);
    return HexByte(0x80 + |lengthBytes|) + Hex(lengthBytes);
  }

  lemma HexOfTlv(tag: byte, content: seq<byte>)
    requires |content| < 0x8000_0000
    ensures HexByte(tag) + Hex(LengthOctets(|content|)) + Hex(content) == Hex(Tlv(tag, content))
  {
    HexOfConcat([tag] + LengthOctets(|content|), content);
    HexOfConcat([tag], LengthOctets(|content|));
    HexOfOne(tag);
  }

  lemma HexOfKey(n: seq<byte>, e: seq<byte>)
    requires Encodable(n, e)
    ensures var inner := HexByte(INTEGER_TAG) + Hex(LengthOctets(|n|)) + Hex(n)
                         + (HexByte(INTEGER_TAG) + Hex(LengthOctets(|e|)) + Hex(e));
            && inner == Hex(Inner(n, e))
            && FromHex(HexByte(SEQUENCE_TAG) + Hex(LengthOctets(|Inner(n, e)|)) + inner) == RsaDer(n, e)
  {
    HexOfTlv(INTEGER_TAG, n);
    HexOfTlv(INTEGER_TAG, e);
    HexOfConcat(Tlv(INTEGER_TAG, n), Tlv(INTEGER_TAG, e));
    HexOfTlv(SEQUENCE_TAG, Inner(n, e));
    HexRoundTrip(RsaDer(n, e));
  }

  method PublicKeyHex(n: seq<byte>, e: seq<byte>) returns (publicKey: string)
    requires Encodable(n, e)
    ensures FromHex(publicKey) == RsaDer(n, e)
  {
    var nHex, eHex := Hex(n), Hex(e);
    var nLength := LengthToHex(nHex, n);
    var eLength := LengthToHex(eHex, e);
    var modulus := HexByte(INTEGER_TAG) + nLength + nHex;
    var exponent := HexByte(INTEGER_TAG) + eLength + eHex;
    var inner := modulus + exponent;
    HexOfKey(n, e);
    var innerLength := LengthToHex(inner, Inner(n, e));
    publicKey := HexByte(SEQUENCE_TAG) + innerLength + inner;
  }

  method JwkToPem(jwkN: string, jwkE: string) returns (pem: string)
    requires Encodable(Decode(UrlToBase64(jwkN)), Decode(UrlToBase64(jwkE)))
    ensures pem == Pem(Decode(UrlToBase64(jwkN)), Decode(UrlToBase64(jwkE)))
    ensures ReadPem(pem) == Some(RsaPublicKey(Decode(UrlToBase64(jwkN)), Decode(UrlToBase64(jwkE))))
  {
    var n := Decode(UrlToBase64(jwkN));
    var e := Decode(UrlToBase64(jwkE));
    var publicKey := PublicKeyHex(n, e);
    var base64 := Encode(FromHex(publicKey));
    pem := HEADER + "\n" + Join(Lines(base64)) + "\n" + FOOTER;
    PemRoundTrip(n, e);
  }

  /** End to end: the key a JWK carries comes back out of the PEM. */
  lemma JwkKeyRecovered(n: seq<byte>, e: seq<byte>, jwkN: string, jwkE: string)
    requires Encodable(n, e) && jwkN == EncodeUrl(n) && jwkE == EncodeUrl(e)
    ensures Encodable(Decode(UrlToBase64(jwkN)), Decode(UrlToBase64(jwkE)))
    ensures ReadPem(Pem(Decode(UrlToBase64(jwkN)), Decode(UrlToBase64(jwkE)))) == Some(RsaPublicKey(n, e))
  {
    Base64RoundTrip(n);
    Base64RoundTrip(e);
    PemRoundTrip(n, e);
  }

  /** Through the whole text: a reader of the PEM gets the modulus the JWK meant, as a
      number, if and only if its first octet is below 0x80. */
  lemma SignThroughPemIff(n: seq<byte>, e: seq<byte>)
    requires Encodable(n, e) && n != []
    ensures var key := ReadPem(Pem(n, e));
            key.Some? && (IntegerValue(key.value.modulus) == UnsignedValue(n) <==> n[0] < 0x80)
  {
    PemRoundTrip(n, e);
    SignReadsRightIff(n);
  }

  /** A JWK with the one-octet modulus 0x80 and exponent 65537: 128 reads as -128. */
  lemma ModulusReadsNegative()
    ensures var n, e := Decode(UrlToBase64(EncodeUrl([0x80]))), Decode(UrlToBase64(EncodeUrl([1, 0, 1])));
            && Encodable(n, e) && UnsignedValue(n) == 128
            && ReadPem(Pem(n, e)).Some? && IntegerValue(ReadPem(Pem(n, e)).value.modulus) == -128
  {
    var n: seq<byte>, e: seq<byte> := [0x80], [1, 0, 1];
    hide Pem, ReadPem, Decode, UrlToBase64, EncodeUrl;
    SmallIsEncodable(n, e);
    JwkKeyRecovered(n, e, EncodeUrl(n), EncodeUrl(e));
    Base64RoundTrip(n);
    assert n[..0] == [];
    assert UnsignedValue(n) == UnsignedValue(n[..0]) * 256 + 0x80;
  }

  lemma SmallIsEncodable(n: seq<byte>, e: seq<byte>)
    requires |n| == 1 && |e| == 3
    ensures Encodable(n, e)
  {
  }
}
