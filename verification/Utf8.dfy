/**
 * UTF-8: the encoder of section 3 of RFC 3629, and the decoder of section 14.1 of the
 * WHATWG Encoding Standard, which replaces malformed input.
 */
module Utf8 {

  type byte = x: int | 0 <= x < 256

  const REPLACEMENT := 0xFFFD as char

  const BOM := 0xFEFF as char

  function EncodeChar(c: char): (r: seq<byte>)
    ensures 1 <= |r| <= 4
  {
    var n := c as int;
    if n < 0x80 then [n]
    else if n < 0x800 then [0xC0 + n / 64, 0x80 + n % 64]
    else if n < 0x10000 then [0xE0 + n / 4096, 0x80 + n / 64 % 64, 0x80 + n % 64]
    else [0xF0 + n / 262144, 0x80 + n / 4096 % 64, 0x80 + n / 64 % 64, 0x80 + n % 64]
  }

  /** `TextEncoder.encode` */
  function Encode(s: string): seq<byte>
  {
    if s == "" then [] else EncodeChar(s[0]) + Encode(s[1..])
  }

  /** The examples of section 7 of RFC 3629, and the mark of its section 6. */
  lemma Rfc3629Examples()
    ensures Encode(['A', 0x2262 as char, 0x391 as char, '.']) == [0x41, 0xE2, 0x89, 0xA2, 0xCE, 0x91, 0x2E]
    ensures Encode([0x233B4 as char]) == [0xF0, 0xA3, 0x8E, 0xB4]
    ensures Encode([BOM]) == [0xEF, 0xBB, 0xBF]
  {
    var s := ['A', 0x2262 as char, 0x391 as char, '.'];
    assert s[1..] == [0x2262 as char, 0x391 as char, '.'] && s[1..][1..] == [0x391 as char, '.'];
    assert s[1..][1..][1..] == ['.'] && s[1..][1..][1..][1..] == [];
    assert Encode(['.']) == [0x2E];
    assert Encode([0x391 as char, '.']) == [0xCE, 0x91] + [0x2E];
    assert Encode(s[1..]) == [0xE2, 0x89, 0xA2] + ([0xCE, 0x91] + [0x2E]);
    assert [0x233B4 as char][1..] == [] && [BOM][1..] == [];
  }

  /** Between characters, or inside one with its partial value and the bounds of the next byte. */
  datatype Pending = Start | Inside(needed: nat, value: nat, lower: nat, upper: nat)

  /** What a leading byte announces; None when no character starts with it. */
  function Lead(b: byte): (r: (bool, Pending))
  {
    if 0xC2 <= b <= 0xDF then (true, Inside(1, b - 0xC0, 0x80, 0xBF))
    else if 0xE0 <= b <= 0xEF then
      (true, Inside(2, b - 0xE0, if b == 0xE0 then 0xA0 else 0x80, if b == 0xED then 0x9F else 0xBF))
    else if 0xF0 <= b <= 0xF4 then
      (true, Inside(3, b - 0xF0, if b == 0xF0 then 0x90 else 0x80, if b == 0xF4 then 0x8F else 0xBF))
    else (false, Start)
  }

  predicate IsScalar(n: int)
  {
    0 <= n < 0xD800 || 0xE000 <= n < 0x110000
  }

  /** The decoder's main loop. A byte that cannot continue a character is looked at again. */
  function DecodeFrom(bytes: seq<byte>, p: Pending): string
    decreases |bytes|, if p.Start? then 0 else 1
  {
    if bytes == [] then
      if p.Start? then "" else [REPLACEMENT]
    else
      var b := bytes[0];
      match p
      case Start =>
        if b < 0x80 then [b as char] + DecodeFrom(bytes[1..], Start)
        else if Lead(b).0 then DecodeFrom(bytes[1..], Lead(b).1)
        else [REPLACEMENT] + DecodeFrom(bytes[1..], Start)
      case Inside(needed, value, lower, upper) =>
        if !(lower <= b <= upper) then [REPLACEMENT] + DecodeFrom(bytes, Start)
        else
          var next := value * 64 + b % 64;
          if needed > 1 then DecodeFrom(bytes[1..], Inside(needed - 1, next, 0x80, 0xBF))
          else if IsScalar(next) then [next as char] + DecodeFrom(bytes[1..], Start)
          else [REPLACEMENT] + DecodeFrom(bytes[1..], Start)
  }

  /** `TextDecoder.decode`: one leading byte order mark is dropped. */
  function Decode(bytes: seq<byte>): string
  {
    if |bytes| >= 3 && bytes[..3] == [0xEF, 0xBB, 0xBF] then DecodeFrom(bytes[3..], Start)
    else DecodeFrom(bytes, Start)
  }

  lemma Tail<T>(a: T, s: seq<T>)
    ensures ([a] + s)[0] == a && ([a] + s)[1..] == s
  {
  }

  /** A continuation byte in range, with more to come. */
  lemma Continue(b: byte, needed: nat, value: nat, lower: nat, upper: nat, rest: seq<byte>)
    requires lower <= b <= upper && needed > 1
    ensures DecodeFrom([b] + rest, Inside(needed, value, lower, upper))
         == DecodeFrom(rest, Inside(needed - 1, value * 64 + b % 64, 0x80, 0xBF))
  {
    Tail(b, rest);
  }

  /** The last byte of a character. */
  lemma Finish(b: byte, value: nat, lower: nat, upper: nat, c: char, rest: seq<byte>)
    requires lower <= b <= upper && value * 64 + b % 64 == c as int
    ensures DecodeFrom([b] + rest, Inside(1, value, lower, upper)) == [c] + DecodeFrom(rest, Start)
  {
    Tail(b, rest);
  }

  lemma Announce(b: byte, rest: seq<byte>)
    requires b >= 0x80 && Lead(b).0
    ensures DecodeFrom([b] + rest, Start) == DecodeFrom(rest, Lead(b).1)
  {
    Tail(b, rest);
  }

  lemma Two(c: char, rest: seq<byte>)
    requires 0x80 <= c as int < 0x800
    ensures DecodeFrom(EncodeChar(c) + rest, Start) == [c] + DecodeFrom(rest, Start)
  {
    var n, e := c as int, EncodeChar(c);
    assert e + rest == [e[0]] + ([e[1]] + rest);
    Announce(e[0], [e[1]] + rest);
    assert Lead(e[0]).1 == Inside(1, n / 64, 0x80, 0xBF);
    assert e[1] % 64 == n % 64;
    Finish(e[1], n / 64, 0x80, 0xBF, c, rest);
  }

  lemma Three(c: char, rest: seq<byte>)
    requires 0x800 <= c as int < 0x10000
    ensures DecodeFrom(EncodeChar(c) + rest, Start) == [c] + DecodeFrom(rest, Start)
  {
    var n, e := c as int, EncodeChar(c);
    var t1 := [e[2]] + rest;
    var t2 := [e[1]] + t1;
    assert e + rest == [e[0]] + t2;
    Announce(e[0], t2);
    var p := Lead(e[0]).1;
    assert p.needed == 2 && p.value == n / 4096;
    Groups(n);
    assert p.lower <= e[1] <= p.upper;
    assert e[1] % 64 == n / 64 % 64 && e[2] % 64 == n % 64;
    Continue(e[1], 2, n / 4096, p.lower, p.upper, t1);
    Finish(e[2], n / 64, 0x80, 0xBF, c, rest);
  }

  /** The six-bit groups of a number. */
  lemma Groups(n: nat)
    ensures n == n / 64 * 64 + n % 64
    ensures n / 64 == n / 4096 * 64 + n / 64 % 64
    ensures n / 4096 == n / 262144 * 64 + n / 4096 % 64
  {
  }

  lemma FourBytes(e: seq<byte>, p: Pending, c: char, rest: seq<byte>)
    requires |e| == 4 && e[0] >= 0x80 && Lead(e[0]) == (true, p) && p.Inside? && p.needed == 3
    requires p.lower <= e[1] <= p.upper && 0x80 <= e[2] <= 0xBF && 0x80 <= e[3] <= 0xBF
    requires ((p.value * 64 + e[1] % 64) * 64 + e[2] % 64) * 64 + e[3] % 64 == c as int
    ensures DecodeFrom(e + rest, Start) == [c] + DecodeFrom(rest, Start)
  {
    var t1 := [e[3]] + rest;
    var t2 := [e[2]] + t1;
    var t3 := [e[1]] + t2;
    assert e + rest == [e[0]] + t3;
    Announce(e[0], t3);
    Continue(e[1], 3, p.value, p.lower, p.upper, t2);
    Continue(e[2], 2, p.value * 64 + e[1] % 64, 0x80, 0xBF, t1);
    Finish(e[3], (p.value * 64 + e[1] % 64) * 64 + e[2] % 64, 0x80, 0xBF, c, rest);
  }

  lemma Four(c: char, rest: seq<byte>)
    requires 0x10000 <= c as int
    ensures DecodeFrom(EncodeChar(c) + rest, Start) == [c] + DecodeFrom(rest, Start)
  {
    var n, e := c as int, EncodeChar(c);
    Groups(n);
    var p := Lead(e[0]).1;
    assert p.value == n / 262144;
    assert e[1] % 64 == n / 4096 % 64 && e[2] % 64 == n / 64 % 64 && e[3] % 64 == n % 64;
    FourBytes(e, p, c, rest);
  }

  lemma DecodeOne(c: char, rest: seq<byte>)
    ensures DecodeFrom(EncodeChar(c) + rest, Start) == [c] + DecodeFrom(rest, Start)
  {
    if c as int < 0x80 {
      Tail(c as int, rest);
    } else if c as int < 0x800 {
      Two(c, rest);
    } else if c as int < 0x10000 {
      Three(c, rest);
    } else {
      Four(c, rest);
    }
  }

  lemma {:induction false} DecodeEncoded(s: string)
    ensures DecodeFrom(Encode(s), Start) == s
  {
    if s != "" {
      DecodeOne(s[0], Encode(s[1..]));
      DecodeEncoded(s[1..]);
      assert s == [s[0]] + s[1..];
    }
  }

  // ----- what is not an encoding is replaced -----

  /** Inside a character the next byte continues it, or a replacement character comes out. */
  lemma NextByte(bytes: seq<byte>, p: Pending)
    requires p.Inside? && REPLACEMENT !in DecodeFrom(bytes, p)
    ensures bytes != [] && p.lower <= bytes[0] <= p.upper
    ensures var next := p.value * 64 + bytes[0] % 64;
      && (p.needed > 1 ==> DecodeFrom(bytes, p) == DecodeFrom(bytes[1..], Inside(p.needed - 1, next, 0x80, 0xBF)))
      && (p.needed <= 1 ==> IsScalar(next) && DecodeFrom(bytes, p) == [next as char] + DecodeFrom(bytes[1..], Start))
  {
  }

  /** A continuation byte is the last digit to base 64. */
  lemma Digits(value: nat, b: byte)
    requires 0x80 <= b <= 0xBF
    ensures (value * 64 + b % 64) / 64 == value && 0x80 + (value * 64 + b % 64) % 64 == b
    ensures (value * 64 + b % 64) / 4096 == value / 64 && (value * 64 + b % 64) / 262144 == value / 4096
  {
  }

  /** Three continuation bytes after the first one decode to the character with that encoding. */
  lemma FourDigits(v: nat, b1: byte, b2: byte, b3: byte, c: char)
    requires v <= 4 && 0x80 <= b1 <= 0xBF && 0x80 <= b2 <= 0xBF && 0x80 <= b3 <= 0xBF
    requires c as int == ((v * 64 + b1 % 64) * 64 + b2 % 64) * 64 + b3 % 64 && 0x10000 <= c as int
    ensures EncodeChar(c) == [0xF0 + v, b1, b2, b3]
  {
    var first := v * 64 + b1 % 64;
    var second := first * 64 + b2 % 64;
    Digits(v, b1);
    Digits(first, b2);
    Digits(second, b3);
    Digits(v * 64, b2);
  }

  lemma TwoBack(bytes: seq<byte>) returns (c: char)
    requires bytes != [] && 0xC2 <= bytes[0] <= 0xDF && REPLACEMENT !in DecodeFrom(bytes, Start)
    ensures |bytes| >= 2 && EncodeChar(c) == bytes[..2]
    ensures DecodeFrom(bytes, Start) == [c] + DecodeFrom(bytes[2..], Start)
  {
    var p := Lead(bytes[0]).1;
    NextByte(bytes[1..], p);
    c := (p.value * 64 + bytes[1] % 64) as char;
    assert bytes[1..][1..] == bytes[2..];
    Digits(p.value, bytes[1]);
  }

  lemma ThreeBack(bytes: seq<byte>) returns (c: char)
    requires bytes != [] && 0xE0 <= bytes[0] <= 0xEF && REPLACEMENT !in DecodeFrom(bytes, Start)
    ensures |bytes| >= 3 && EncodeChar(c) == bytes[..3]
    ensures DecodeFrom(bytes, Start) == [c] + DecodeFrom(bytes[3..], Start)
  {
    var p := Lead(bytes[0]).1;
    NextByte(bytes[1..], p);
    var first := p.value * 64 + bytes[1] % 64;
    NextByte(bytes[1..][1..], Inside(1, first, 0x80, 0xBF));
    c := (first * 64 + bytes[2] % 64) as char;
    assert bytes[1..][1..] == bytes[2..] && bytes[2..][1..] == bytes[3..];
    Digits(p.value, bytes[1]);
    Digits(first, bytes[2]);
  }

  lemma FourBack(bytes: seq<byte>) returns (c: char)
    requires bytes != [] && 0xF0 <= bytes[0] <= 0xF4 && REPLACEMENT !in DecodeFrom(bytes, Start)
    ensures |bytes| >= 4 && EncodeChar(c) == bytes[..4]
    ensures DecodeFrom(bytes, Start) == [c] + DecodeFrom(bytes[4..], Start)
  {
    var p := Lead(bytes[0]).1;
    NextByte(bytes[1..], p);
    var first := p.value * 64 + bytes[1] % 64;
    assert bytes[1..][1..] == bytes[2..] && bytes[2..][1..] == bytes[3..] && bytes[3..][1..] == bytes[4..];
    NextByte(bytes[2..], Inside(2, first, 0x80, 0xBF));
    var second := first * 64 + bytes[2] % 64;
    NextByte(bytes[3..], Inside(1, second, 0x80, 0xBF));
    c := (second * 64 + bytes[3] % 64) as char;
    assert bytes[..4] == [bytes[0], bytes[1], bytes[2], bytes[3]];
    assert 0x10000 <= c as int;
    FourDigits(p.value, bytes[1], bytes[2], bytes[3], c);
  }

  /** Bytes that are decoded without a replacement character are the encoding of what comes out. */
  lemma {:induction false} DecodedBack(bytes: seq<byte>)
    requires REPLACEMENT !in DecodeFrom(bytes, Start)
    ensures Encode(DecodeFrom(bytes, Start)) == bytes
  {
    if bytes != [] {
      var b := bytes[0];
      var c, n := b as char, 1;
      if 0xC2 <= b <= 0xDF {
        c := TwoBack(bytes);
        n := 2;
      } else if 0xE0 <= b <= 0xEF {
        c := ThreeBack(bytes);
        n := 3;
      } else if 0xF0 <= b <= 0xF4 {
        c := FourBack(bytes);
        n := 4;
      }
      var s := DecodeFrom(bytes[n..], Start);
      assert DecodeFrom(bytes, Start) == [c] + s && EncodeChar(c) == bytes[..n];
      forall x | x in s ensures x != REPLACEMENT { assert x in [c] + s; }
      DecodedBack(bytes[n..]);
      Tail(c, s);
      assert bytes == bytes[..n] + bytes[n..];
    }
  }

  /** Malformed input gives one replacement character for each longest part that could begin a character. */
  lemma MalformedExamples()
    ensures DecodeFrom([0xC0, 0x80], Start) == [REPLACEMENT, REPLACEMENT]
    ensures DecodeFrom([0xE2, 0x82], Start) == [REPLACEMENT]
    ensures DecodeFrom([0xE2, 0x28], Start) == [REPLACEMENT, '(']
    ensures DecodeFrom([0xED, 0xA0], Start) == [REPLACEMENT, REPLACEMENT]
  {
    assert [0xC0, 0x80][1..] == [0x80] && [0x80][1..] == [] && [0xE2, 0x82][1..] == [0x82] && [0x82][1..] == [];
    assert [0xE2, 0x28][1..] == [0x28] && [0x28][1..] == [] && [0xED, 0xA0][1..] == [0xA0] && [0xA0][1..] == [];
    assert DecodeFrom([0x80], Start) == [REPLACEMENT] && DecodeFrom([0xA0], Start) == [REPLACEMENT];
    assert DecodeFrom([0x28], Start) == ['('];
  }

  /** Only U+FEFF is encoded with the bytes of a byte order mark, and no other length starts with 0xEF. */
  lemma OnlyBom(c: char)
    ensures EncodeChar(c) == [0xEF, 0xBB, 0xBF] <==> c == BOM
    ensures EncodeChar(c)[0] == 0xEF ==> |EncodeChar(c)| == 3
  {
    var n := c as int;
    Groups(n);
  }

  lemma StartsWithBom(s: string)
    ensures |Encode(s)| >= 3 && Encode(s)[..3] == [0xEF, 0xBB, 0xBF] <==> s != "" && s[0] == BOM
  {
    if s != "" {
      var e, rest := EncodeChar(s[0]), Encode(s[1..]);
      OnlyBom(s[0]);
      if |e| == 3 {
        assert (e + rest)[..3] == e;
      } else {
        assert (e + rest)[0] == e[0];
        assert |e + rest| >= 3 ==> (e + rest)[..3][0] == e[0];
      }
    }
  }

  /** Decoding an encoded string gives it back, less one leading U+FEFF. */
  lemma RoundTrip(s: string)
    ensures Decode(Encode(s)) == if s != "" && s[0] == BOM then s[1..] else s
  {
    StartsWithBom(s);
    if s != "" && s[0] == BOM {
      assert Encode(s)[3..] == Encode(s[1..]);
      DecodeEncoded(s[1..]);
    } else {
      DecodeEncoded(s);
    }
  }
}
