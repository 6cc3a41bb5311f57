/**
 * Standard base64, section 4 of RFC 4648, as `btoa` and `atob` of the WHATWG HTML Standard
 * give it, and the two loops of encodeIRI.ts around them.
 */
module Base64 {

  import opened Json
  import opened Utf8

  type sextet = x: int | 0 <= x < 64

  const CHUNK_SIZE := 0x8000

  function Digit(n: sextet): char
  {
    if n < 26 then ('A' as int + n) as char
    else if n < 52 then ('a' as int + n - 26) as char
    else if n < 62 then ('0' as int + n - 52) as char
    else if n == 62 then '+'
    else '/'
  }

  function DigitValue(c: char): Option<sextet>
  {
    if 'A' <= c <= 'Z' then Some(c as int - 'A' as int)
    else if 'a' <= c <= 'z' then Some(c as int - 'a' as int + 26)
    else if '0' <= c <= '9' then Some(c as int - '0' as int + 52)
    else if c == '+' then Some(62)
    else if c == '/' then Some(63)
    else None
  }

  lemma DigitHasItsValue(n: sextet)
    ensures DigitValue(Digit(n)) == Some(n)
  {
  }

  /** Three bytes make four digits; one or two bytes at the end make two or three. */
  function Sextets(b: seq<byte>): seq<sextet>
  {
    if |b| == 0 then []
    else if |b| == 1 then [b[0] / 4, b[0] % 4 * 16]
    else if |b| == 2 then [b[0] / 4, b[0] % 4 * 16 + b[1] / 16, b[1] % 16 * 4]
    else [b[0] / 4, b[0] % 4 * 16 + b[1] / 16, b[1] % 16 * 4 + b[2] / 64, b[2] % 64] + Sextets(b[3..])
  }

  /** Four digits make three bytes; the bits left over after two or three digits are dropped. */
  function Bytes(d: seq<sextet>): seq<byte>
  {
    if |d| < 2 then []
    else if |d| == 2 then [d[0] as int * 4 + d[1] / 16]
    else if |d| == 3 then [d[0] as int * 4 + d[1] / 16, d[1] as int % 16 * 16 + d[2] / 4]
    else
      [d[0] as int * 4 + d[1] / 16, d[1] as int % 16 * 16 + d[2] / 4, d[2] as int % 4 * 64 + d[3]] + Bytes(d[4..])
  }

  /** Examples of section 10 of RFC 4648, and the last two digits of its alphabet. */
  lemma Rfc4648Examples()
    ensures Letters(Sextets([102, 111, 111, 98, 97, 114])) == "Zm9vYmFy"
    ensures Letters(Sextets([102])) == "Zg" && Letters(Sextets([102, 111])) == "Zm8"
    ensures Letters(Sextets([0xFB, 0xEF, 0xFF])) == "++//"
  {
    var foobar: seq<byte> := [102, 111, 111, 98, 97, 114];
    assert foobar[3..] == [98, 97, 114] && [98, 97, 114][3..] == [] && [0xFB, 0xEF, 0xFF][3..] == [];
    assert Sextets(foobar[3..]) == [24, 38, 5, 50];
    assert Sextets(foobar) == [25, 38, 61, 47, 24, 38, 5, 50];
    assert Sextets([102]) == [25, 32] && Sextets([102, 111]) == [25, 38, 60];
    assert Sextets([0xFB, 0xEF, 0xFF]) == [62, 62, 63, 63];
  }

  /** `base64.length` without padding. */
  function DigitCount(n: nat): nat
  {
    (4 * n + 2) / 3
  }

  lemma {:induction false} SextetCount(b: seq<byte>)
    ensures |Sextets(b)| == DigitCount(|b|)
  {
    if |b| >= 3 {
      SextetCount(b[3..]);
    }
  }

  /** Four digits and three bytes carry the same 24 bits. */
  lemma SameBits(x: byte, y: byte, z: byte)
    ensures x / 4 * 4 + (x % 4 * 16 + y / 16) / 16 == x
    ensures (x % 4 * 16 + y / 16) % 16 * 16 + (y % 16 * 4 + z / 64) / 4 == y
    ensures (y % 16 * 4 + z / 64) % 4 * 64 + z % 64 == z
  {
  }

  lemma {:induction false} SextetsGiveBytes(b: seq<byte>)
    ensures Bytes(Sextets(b)) == b
  {
    if |b| >= 3 {
      var x, y, z, rest := b[0], b[1], b[2], Sextets(b[3..]);
      var head: seq<sextet> := [x / 4, x % 4 * 16 + y / 16, y % 16 * 4 + z / 64, z % 64];
      SextetsGiveBytes(b[3..]);
      SameBits(x, y, z);
      assert Sextets(b) == head + rest && (head + rest)[4..] == rest;
      assert b == [x, y, z] + b[3..];
    } else if |b| == 2 {
      SameBits(b[0], b[1], 0);
      assert b == [b[0], b[1]];
    } else if |b| == 1 {
      SameBits(b[0], 0, 0);
      assert b == [b[0]];
    }
  }

  function Letters(d: seq<sextet>): (r: string)
    ensures |r| == |d|
  {
    seq(|d|, i requires 0 <= i < |d| => Digit(d[i]))
  }

  /** `c.repeat(n)` */
  function Repeat(c: char, n: nat): (r: string)
    ensures |r| == n && forall i :: 0 <= i < n ==> r[i] == c
  {
    if n == 0 then "" else [c] + Repeat(c, n - 1)
  }

  /** How many characters are missing to a multiple of four. */
  function Missing(n: nat): (r: nat)
    ensures r < 4 && (n + r) % 4 == 0
  {
    (4 - n % 4) % 4
  }

  function Body(b: seq<byte>): string
  {
    Letters(Sextets(b))
  }

  /** Section 4 of RFC 4648 */
  function Standard(b: seq<byte>): string
  {
    Body(b) + Repeat('=', Missing(|Body(b)|))
  }

  /** One character per byte. */
  predicate IsBinary(s: string)
  {
    forall i :: 0 <= i < |s| ==> s[i] as int < 256
  }

  function CharCodes(binary: string): (r: seq<byte>)
    requires IsBinary(binary)
    ensures |r| == |binary|
    ensures forall i :: 0 <= i < |r| ==> r[i] == binary[i] as int
  {
    if binary == "" then [] else [binary[0] as int] + CharCodes(binary[1..])
  }

  function FromCharCodes(b: seq<byte>): string
  {
    seq(|b|, i requires 0 <= i < |b| => b[i] as char)
  }

  /** `btoa` throws on a character above U+00FF. */
  function Btoa(binary: string): Option<string>
  {
    if IsBinary(binary) then Some(Standard(CharCodes(binary))) else None
  }

  predicate IsAsciiWhitespace(c: char)
  {
    c == ' ' || c == '\t' || c == '\n' || c == '\r' || c == 12 as char
  }

  function WithoutWhitespace(s: string): string
  {
    if s == "" then ""
    else (if IsAsciiWhitespace(s[0]) then "" else [s[0]]) + WithoutWhitespace(s[1..])
  }

  /** One or two `=` at the end of a text whose length is a multiple of four. */
  function WithoutPadding(s: string): string
  {
    if |s| % 4 == 0 then WithoutTwo(s) else s
  }

  function WithoutTwo(s: string): string
  {
    if s == "" || s[|s| - 1] != '=' then s
    else if |s| > 1 && s[|s| - 2] == '=' then s[..|s| - 2]
    else s[..|s| - 1]
  }

  predicate AllDigits(s: string)
  {
    forall i :: 0 <= i < |s| ==> DigitValue(s[i]).Some?
  }

  function DigitValues(s: string): seq<sextet>
    requires AllDigits(s)
  {
    seq(|s|, i requires 0 <= i < |s| => DigitValue(s[i]).value)
  }

  /** The bytes of the forgiving-base64 decode, section 8 of the WHATWG Infra Standard. */
  function ForgivingDecode(text: string): Option<seq<byte>>
  {
    var data := WithoutPadding(WithoutWhitespace(text));
    if |data| % 4 == 1 || !AllDigits(data) then None
    else Some(Bytes(DigitValues(data)))
  }

  /** `atob` */
  function Atob(text: string): Option<string>
  {
    match ForgivingDecode(text)
    case None => None
    case Some(b) => Some(FromCharCodes(b))
  }

  lemma CharCodesRoundTrip(b: seq<byte>)
    ensures IsBinary(FromCharCodes(b))
    ensures CharCodes(FromCharCodes(b)) == b
  {
  }

  /** `bytesToBase64`: the binary string is built chunk by chunk, and `btoa` never throws on it. */
  method BytesToBase64(bytes: seq<byte>) returns (base64: string)
    ensures base64 == Standard(bytes)
  {
    var binary := "";
    var i := 0;
    while i < |bytes|
      invariant 0 <= i
      invariant binary == FromCharCodes(bytes[..if i < |bytes| then i else |bytes|])
    {
      var end := if i + CHUNK_SIZE < |bytes| then i + CHUNK_SIZE else |bytes|;
      var chunk := bytes[i..end];
      assert bytes[..i] + chunk == bytes[..end];
      binary := binary + FromCharCodes(chunk);
      i := i + CHUNK_SIZE;
    }
    assert bytes[..|bytes|] == bytes;
    CharCodesRoundTrip(bytes);
    base64 := Btoa(binary).value;
  }

  /** `base64ToBytes`: `decoded` is false where `atob` throws. */
  method Base64ToBytes(base64: string) returns (decoded: bool, bytes: array<byte>)
    ensures fresh(bytes)
    ensures ForgivingDecode(base64) == if decoded then Some(bytes[..]) else None
  {
    var binary := Atob(base64);
    if binary.None? {
      return false, new byte[0];
    }
    ghost var b := ForgivingDecode(base64).value;
    CharCodesRoundTrip(b);
    bytes := new byte[|binary.value|];
    var i := 0;
    while i < |binary.value|
      invariant 0 <= i <= |binary.value|
      invariant bytes[..i] == b[..i]
    {
      bytes[i] := binary.value[i] as int;
      i := i + 1;
    }
    assert bytes[..] == bytes[..|b|] == b;
    decoded := true;
  }

  lemma {:induction false} NoWhitespace(s: string)
    requires forall i :: 0 <= i < |s| ==> !IsAsciiWhitespace(s[i])
    ensures WithoutWhitespace(s) == s
  {
    if s != "" {
      NoWhitespace(s[1..]);
    }
  }

  lemma LettersAreDigits(d: seq<sextet>)
    ensures AllDigits(Letters(d)) && DigitValues(Letters(d)) == d
  {
    forall i | 0 <= i < |d|
      ensures DigitValue(Letters(d)[i]) == Some(d[i])
    {
      DigitHasItsValue(d[i]);
    }
  }

  lemma {:induction false} TakePadding(body: string, k: nat, n: nat)
    requires n <= k
    ensures (body + Repeat('=', k))[..|body| + n] == body + Repeat('=', n)
  {
  }

  lemma {:induction false} PaddingIsRemoved(body: string, k: nat)
    requires (|body| + k) % 4 == 0
    requires body == "" || body[|body| - 1] != '='
    ensures WithoutPadding(body + Repeat('=', k)) == body + Repeat('=', if k <= 2 then 0 else k - 2)
  {
    TwoAreRemoved(body, k);
  }

  lemma {:induction false} TwoAreRemoved(body: string, k: nat)
    requires body == "" || body[|body| - 1] != '='
    ensures WithoutTwo(body + Repeat('=', k)) == body + Repeat('=', if k <= 2 then 0 else k - 2)
  {
    var s := body + Repeat('=', k);
    if k >= 2 {
      TakePadding(body, k, k - 2);
      assert s[|s| - 1] == '=' && s[|s| - 2] == '=';
    } else if k == 1 {
      TakePadding(body, k, 0);
      assert s[|s| - 1] == '=' && (body != "" ==> s[|s| - 2] == body[|body| - 1]);
    } else {
      assert s == body;
    }
  }

  lemma NoPadding(body: string)
    ensures body + Repeat('=', 0) == body
  {
  }

  lemma DigitsAreKept(body: string, k: nat)
    requires k <= 2 && (|body| + k) % 4 == 0 && AllDigits(body)
    ensures WithoutPadding(WithoutWhitespace(body + Repeat('=', k))) == body
  {
    NoWhitespace(body + Repeat('=', k));
    PaddingIsRemoved(body, k);
    NoPadding(body);
  }

  /** Decoding the standard form gives the bytes back. */
  lemma StandardDecodes(b: seq<byte>)
    ensures ForgivingDecode(Standard(b)) == Some(b)
  {
    SextetCount(b);
    LettersAreDigits(Sextets(b));
    DigitsAreKept(Body(b), Missing(|Body(b)|));
    SextetsGiveBytes(b);
  }
}
