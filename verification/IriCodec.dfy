/** encodeIRI.ts: base64url over UTF-8, with a decoder that also takes older spellings. */
module IriCodec {

  import opened Json
  import opened Utf8
  import opened Base64

  function Replace(s: string, from: char, to: char): (r: string)
    ensures |r| == |s|
  {
    seq(|s|, i requires 0 <= i < |s| => if s[i] == from then to else s[i])
  }

  /** `s.replace(/=+$/, "")` */
  function WithoutTrailing(s: string): (r: string)
    ensures |r| <= |s|
  {
    if s == "" || s[|s| - 1] != '=' then s else WithoutTrailing(s[..|s| - 1])
  }

  function ToBase64Url(base64: string): string
  {
    WithoutTrailing(Replace(Replace(base64, '+', '-'), '/', '_'))
  }

  function Standardized(encoded: string): (r: string)
    ensures |r| == |encoded|
  {
    Replace(Replace(Replace(encoded, ' ', '+'), '-', '+'), '_', '/')
  }

  function NormalizeBase64Input(encoded: string): string
  {
    var standard := Standardized(encoded);
    standard + Repeat('=', Missing(|standard|))
  }

  function EncodeIRI(iri: string): string
  {
    ToBase64Url(Standard(Encode(iri)))
  }

  /** None where `atob` throws. */
  function DecodeIRI(encoded: string): Option<string>
  {
    match ForgivingDecode(NormalizeBase64Input(encoded))
    case None => None
    case Some(bytes) => Some(Decode(bytes))
  }

  /** The ways of writing one character of the standard form that the decoder takes. */
  predicate Spells(c: char, standard: char)
  {
    c == standard || (standard == '+' && (c == ' ' || c == '-')) || (standard == '/' && c == '_')
  }

  /** `text` spells the standard form of `b`, with all, some or none of its padding. */
  predicate SpellsBytes(text: string, b: seq<byte>)
  {
    && |Body(b)| <= |text| <= |Standard(b)|
    && forall i :: 0 <= i < |text| ==> Spells(text[i], Standard(b)[i])
  }

  lemma MissingDigits(n: nat, t: nat)
    requires n % 4 != 1
    ensures n <= t <= n + Missing(n) <==> t + Missing(t) == n + Missing(n) && n <= t
  {
  }

  lemma SpellingsNormalize(text: string, b: seq<byte>)
    requires SpellsBytes(text, b)
    ensures NormalizeBase64Input(text) == Standard(b)
  {
    var s := Standard(b);
    SextetCount(b);
    LettersAreDigits(Sextets(b));
    MissingDigits(|Body(b)|, |text|);
    forall i | 0 <= i < |s|
      ensures NormalizeBase64Input(text)[i] == s[i]
    {
      if i < |text| {
        assert Spells(text[i], s[i]);
        assert s[i] != ' ' && s[i] != '-' && s[i] != '_';
      }
    }
  }

  lemma OnlySpellingsNormalize(text: string, b: seq<byte>)
    requires NormalizeBase64Input(text) == Standard(b)
    ensures SpellsBytes(text, b)
  {
    var s := Standard(b);
    LettersAreDigits(Sextets(b));
    assert forall i :: 0 <= i < |Body(b)| ==> s[i] == Body(b)[i] && s[i] != '=';
    assert |text| < |s| ==> s[|text|] == '=';
    assert forall i :: 0 <= i < |text| ==> s[i] == Standardized(text)[i];
  }

  /** The decoder's input becomes the standard form of `b` exactly when it spells that form. */
  lemma NormalizesIff(text: string, b: seq<byte>)
    ensures NormalizeBase64Input(text) == Standard(b) <==> SpellsBytes(text, b)
  {
    if NormalizeBase64Input(text) == Standard(b) {
      OnlySpellingsNormalize(text, b);
    }
    if SpellsBytes(text, b) {
      SpellingsNormalize(text, b);
    }
  }

  /** Whatever spells the bytes, in part padded or not, is decoded to them. */
  lemma SpellingsDecode(text: string, b: seq<byte>)
    requires SpellsBytes(text, b)
    ensures DecodeIRI(text) == Some(Decode(b))
  {
    SpellingsNormalize(text, b);
    StandardDecodes(b);
  }

  lemma {:induction false} TrailingDropped(body: string, k: nat)
    requires body == "" || body[|body| - 1] != '='
    ensures WithoutTrailing(body + Repeat('=', k)) == body
  {
    if k == 0 {
      NoPadding(body);
    } else {
      TakePadding(body, k, k - 1);
      TrailingDropped(body, k - 1);
    }
  }

  /** The url form is the unpadded standard form with its two special digits replaced. */
  lemma UrlForm(b: seq<byte>)
    ensures ToBase64Url(Standard(b)) == Replace(Replace(Body(b), '+', '-'), '/', '_')
  {
    var body, pad := Body(b), Repeat('=', Missing(|Body(b)|));
    var url := Replace(Replace(body, '+', '-'), '/', '_');
    LettersAreDigits(Sextets(b));
    assert Replace(Replace(body + pad, '+', '-'), '/', '_') == url + pad;
    TrailingDropped(url, |pad|);
  }

  /** Padded, unpadded, with every `+` turned into a space, and base64url: all four read the same. */
  lemma ToleratesEveryForm(b: seq<byte>)
    ensures DecodeIRI(Standard(b)) == Some(Decode(b))
    ensures DecodeIRI(Body(b)) == Some(Decode(b))
    ensures DecodeIRI(Replace(Standard(b), '+', ' ')) == Some(Decode(b))
    ensures DecodeIRI(Replace(Body(b), '+', ' ')) == Some(Decode(b))
    ensures DecodeIRI(ToBase64Url(Standard(b))) == Some(Decode(b))
  {
    UrlForm(b);
    SpellingsDecode(Standard(b), b);
    SpellingsDecode(Body(b), b);
    SpellingsDecode(Replace(Standard(b), '+', ' '), b);
    SpellingsDecode(Replace(Body(b), '+', ' '), b);
    SpellingsDecode(ToBase64Url(Standard(b)), b);
  }

  /** The alphabet of section 5 of RFC 4648 */
  predicate IsUrlSafe(c: char)
  {
    'A' <= c <= 'Z' || 'a' <= c <= 'z' || '0' <= c <= '9' || c == '-' || c == '_'
  }

  /** Only url-safe characters, no padding, and as many as the bytes need. */
  lemma EncodedIsUrlSafe(iri: string)
    ensures |EncodeIRI(iri)| == DigitCount(|Encode(iri)|)
    ensures forall i :: 0 <= i < |EncodeIRI(iri)| ==> IsUrlSafe(EncodeIRI(iri)[i])
  {
    var b := Encode(iri);
    SextetCount(b);
    UrlForm(b);
  }

  /** Decoding gives the IRI back, less one leading U+FEFF: exactly the others round-trip. */
  lemma RoundTripIff(iri: string)
    ensures DecodeIRI(EncodeIRI(iri)) == Some(if iri != "" && iri[0] == BOM then iri[1..] else iri)
    ensures DecodeIRI(EncodeIRI(iri)) == Some(iri) <==> !(iri != "" && iri[0] == BOM)
  {
    ToleratesEveryForm(Encode(iri));
    RoundTrip(iri);
  }

  /** Different IRIs have different encodings, also those that lose their byte order mark. */
  lemma EncodingIsInjective(iri: string, other: string)
    requires EncodeIRI(iri) == EncodeIRI(other)
    ensures iri == other
  {
    var a, b := Encode(iri), Encode(other);
    UrlForm(a);
    UrlForm(b);
    SpellingsNormalize(EncodeIRI(iri), a);
    SpellingsNormalize(EncodeIRI(other), b);
    StandardDecodes(a);
    StandardDecodes(b);
    DecodeEncoded(iri);
    DecodeEncoded(other);
  }

  /** Letters, digits and their other spellings. */
  predicate IsReadable(c: char)
  {
    IsUrlSafe(c) || c == '+' || c == '/' || c == ' '
  }

  /** Tabs, line feeds, form feeds and carriage returns. */
  predicate IsControl(c: char)
  {
    c == '\t' || c == '\n' || c == 12 as char || c == '\r'
  }

  predicate NoControls(s: string)
  {
    forall i :: 0 <= i < |s| ==> !IsControl(s[i])
  }

  function WithoutControls(s: string): string
  {
    if s == "" then "" else (if IsControl(s[0]) then "" else [s[0]]) + WithoutControls(s[1..])
  }

  /**
   * Readable characters, never one more than 4k, then padding. Controls are skipped, but the padding
   * that is added counts them; what is there in the end is none, or one or two that fill up to 4k.
   */
  predicate IsDecodable(text: string)
  {
    var clean := WithoutControls(text);
    var body := WithoutTrailing(clean);
    FillsUp(|body|, |clean| - |body| + Missing(|text|)) && AllReadable(body)
  }

  predicate AllReadable(text: string)
  {
    forall i :: 0 <= i < |text| ==> IsReadable(text[i])
  }

  predicate FillsUp(n: nat, padding: nat)
  {
    n % 4 != 1 && (padding == 0 || (padding <= 2 && (n + padding) % 4 == 0))
  }

  lemma StandardizedCons(c: char, s: string)
    ensures Standardized([c] + s) == Standardized([c]) + Standardized(s)
  {
  }

  lemma StandardizedChar(c: char)
    ensures |Standardized([c])| == 1 && (IsAsciiWhitespace(Standardized([c])[0]) <==> IsControl(c))
  {
  }

  lemma {:induction false} WhitespaceConcat(a: string, b: string)
    ensures WithoutWhitespace(a + b) == WithoutWhitespace(a) + WithoutWhitespace(b)
  {
    if a == "" {
      assert a + b == b;
    } else {
      WhitespaceConcat(a[1..], b);
      assert (a + b)[0] == a[0] && (a + b)[1..] == a[1..] + b;
      var first := if IsAsciiWhitespace(a[0]) then "" else [a[0]];
      var p, q := WithoutWhitespace(a[1..]), WithoutWhitespace(b);
      assert first + (p + q) == first + p + q;
    }
  }

  lemma WhitespaceOne(s: string)
    requires |s| == 1
    ensures WithoutWhitespace(s) == if IsAsciiWhitespace(s[0]) then "" else s
  {
    assert s[1..] == "" && s == [s[0]];
  }

  /** Spaces have become digits when the decoder looks for whitespace. */
  lemma {:induction false} ControlsAreSkipped(text: string)
    ensures WithoutWhitespace(Standardized(text)) == Standardized(WithoutControls(text))
  {
    if text != "" {
      var c, rest := text[0], text[1..];
      ControlsAreSkipped(rest);
      assert text == [c] + rest;
      StandardizedCons(c, rest);
      StandardizedCons(c, WithoutControls(rest));
      StandardizedChar(c);
      WhitespaceOne(Standardized([c]));
      WhitespaceConcat(Standardized([c]), Standardized(rest));
    }
  }

  lemma {:induction false} ControlFree(text: string)
    ensures NoControls(WithoutControls(text)) && (NoControls(text) ==> WithoutControls(text) == text)
  {
    if text != "" {
      ControlFree(text[1..]);
      assert text == [text[0]] + text[1..];
    }
  }

  lemma {:induction false} TrailingIsPadding(text: string)
    ensures var n := |WithoutTrailing(text)|;
      && n <= |text|
      && WithoutTrailing(text) == text[..n]
      && (n > 0 ==> text[n - 1] != '=')
      && forall i :: n <= i < |text| ==> text[i] == '='
  {
    if text != "" && text[|text| - 1] == '=' {
      TrailingIsPadding(text[..|text| - 1]);
    }
  }

  lemma PaddingNeeded(n: nat, t: nat)
    requires n <= t
    ensures n % 4 != 1 && t - n <= Missing(n) <==> t - n + Missing(t) <= 2
  {
  }

  lemma DataOf(body: string, k: nat)
    requires (|body| + k) % 4 == 0
    requires body == "" || body[|body| - 1] != '='
    requires forall i :: 0 <= i < |body| ==> !IsAsciiWhitespace(body[i])
    ensures WithoutPadding(WithoutWhitespace(body + Repeat('=', k)))
         == body + Repeat('=', if k <= 2 then 0 else k - 2)
  {
    NoWhitespace(body + Repeat('=', k));
    PaddingIsRemoved(body, k);
  }

  lemma DecodesWithFewPaddings(body: string, k: nat)
    requires (|body| + k) % 4 == 0 && k <= 2
    requires WithoutPadding(WithoutWhitespace(body + Repeat('=', k))) == body
    ensures ForgivingDecode(body + Repeat('=', k)).Some? <==> AllDigits(body)
  {
  }

  lemma FailsWithManyPaddings(body: string, k: nat, more: nat)
    requires WithoutPadding(WithoutWhitespace(body + Repeat('=', k))) == body + Repeat('=', more) && more > 0
    ensures ForgivingDecode(body + Repeat('=', k)).None?
  {
    assert (body + Repeat('=', more))[|body|] == '=';
  }

  lemma PaddedDecodes(body: string, k: nat)
    requires (|body| + k) % 4 == 0
    requires body == "" || body[|body| - 1] != '='
    requires forall i :: 0 <= i < |body| ==> !IsAsciiWhitespace(body[i])
    ensures ForgivingDecode(body + Repeat('=', k)).Some? <==> k <= 2 && AllDigits(body)
  {
    DataOf(body, k);
    if k <= 2 {
      NoPadding(body);
      DecodesWithFewPaddings(body, k);
    } else {
      FailsWithManyPaddings(body, k, k - 2);
    }
  }

  /** Padding that does not fill up to 4k is no digit. */
  lemma {:induction false} UnpaddedDecodes(body: string, k: nat)
    requires (|body| + k) % 4 != 0
    requires forall i :: 0 <= i < |body| ==> !IsAsciiWhitespace(body[i])
    ensures ForgivingDecode(body + Repeat('=', k)).Some? <==> k == 0 && |body| % 4 != 1 && AllDigits(body)
  {
    var text := body + Repeat('=', k);
    NoWhitespace(text);
    assert WithoutPadding(text) == text;
    if k > 0 {
      assert text[|body|] == '=';
    } else {
      assert text == body;
    }
  }

  /** A character is a digit of the standard form once its other spellings are undone. */
  lemma ReadableIsDigit(text: string, n: nat)
    requires n <= |text| && NoControls(text)
    ensures AllDigits(Standardized(text)[..n]) <==> AllReadable(text[..n])
    ensures forall i :: 0 <= i < n ==> !IsAsciiWhitespace(Standardized(text)[..n][i])
  {
    var body := Standardized(text)[..n];
    assert forall i :: 0 <= i < n ==> (DigitValue(body[i]).Some? <==> IsReadable(text[..n][i]));
  }

  lemma SkippedAlike(x: string, y: string)
    requires WithoutWhitespace(x) == WithoutWhitespace(y)
    ensures ForgivingDecode(x) == ForgivingDecode(y)
  {
  }

  lemma {:induction false} NothingLeftToSkip(text: string)
    ensures WithoutWhitespace(Standardized(WithoutControls(text))) == Standardized(WithoutControls(text))
  {
    var clean := WithoutControls(text);
    ControlFree(text);
    ReadableIsDigit(clean, |clean|);
    assert Standardized(clean)[..|clean|] == Standardized(clean);
    NoWhitespace(Standardized(clean));
  }

  /** What is skipped does not change what is decoded. */
  lemma {:induction false} DecodedWithoutControls(text: string)
    ensures ForgivingDecode(NormalizeBase64Input(text)) ==
            ForgivingDecode(Standardized(WithoutControls(text)) + Repeat('=', Missing(|text|)))
  {
    var padding := Repeat('=', Missing(|text|));
    ControlsAreSkipped(text);
    NothingLeftToSkip(text);
    WhitespaceConcat(Standardized(text), padding);
    WhitespaceConcat(Standardized(WithoutControls(text)), padding);
    SkippedAlike(NormalizeBase64Input(text), Standardized(WithoutControls(text)) + padding);
  }

  lemma StandardizedSplits(text: string, n: nat, more: nat)
    requires n <= |text| && forall i :: n <= i < |text| ==> text[i] == '='
    ensures Standardized(text) + Repeat('=', more) == Standardized(text)[..n] + Repeat('=', |text| - n + more)
  {
  }

  lemma PaddingFills(n: nat, k: nat)
    ensures (n + k) % 4 == 0 ==> (k <= 2 <==> n % 4 != 1 && (k == 0 || k <= 2))
    ensures (n + k) % 4 != 0 && k == 0 ==> n % 4 != 0
  {
  }

  lemma LastOfBody(clean: string, n: nat)
    requires 0 < n <= |clean| && clean[n - 1] != '='
    ensures Standardized(clean)[..n][n - 1] != '='
  {
  }

  lemma {:induction false} CleanDecodes(clean: string, n: nat, more: nat)
    requires n <= |clean| && (forall i :: n <= i < |clean| ==> clean[i] == '=') && (n > 0 ==> clean[n - 1] != '=')
    requires NoControls(clean)
    ensures ForgivingDecode(Standardized(clean) + Repeat('=', more)).Some? <==>
            FillsUp(n, |clean| - n + more) && AllReadable(clean[..n])
  {
    var body, k := Standardized(clean)[..n], |clean| - n + more;
    ReadableIsDigit(clean, n);
    if n > 0 { LastOfBody(clean, n); }
    StandardizedSplits(clean, n, more);
    BodyDecodes(body, k);
  }

  lemma {:induction false} FailsWhereAtobThrows(text: string)
    ensures DecodeIRI(text).Some? <==> ForgivingDecode(NormalizeBase64Input(text)).Some?
  {
  }

  lemma {:induction false} CleanTextDecodes(clean: string, more: nat)
    requires NoControls(clean)
    ensures var body := WithoutTrailing(clean);
      ForgivingDecode(Standardized(clean) + Repeat('=', more)).Some? <==>
        FillsUp(|body|, |clean| - |body| + more) && AllReadable(body)
  {
    var n := |WithoutTrailing(clean)|;
    TrailingIsPadding(clean);
    CleanDecodes(clean, n, more);
  }

  /** On which texts `atob` throws. */
  lemma {:induction false} DecodesIff(text: string)
    ensures DecodeIRI(text).Some? <==> IsDecodable(text)
  {
    FailsWhereAtobThrows(text);
    DecodedWithoutControls(text);
    ControlFree(text);
    CleanTextDecodes(WithoutControls(text), Missing(|text|));
  }

  lemma {:induction false} BodyDecodes(body: string, k: nat)
    requires body == "" || body[|body| - 1] != '='
    requires forall i :: 0 <= i < |body| ==> !IsAsciiWhitespace(body[i])
    ensures ForgivingDecode(body + Repeat('=', k)).Some? <==>
            FillsUp(|body|, k) && AllDigits(body)
  {
    PaddingFills(|body|, k);
    if (|body| + k) % 4 == 0 {
      PaddedDecodes(body, k);
    } else {
      UnpaddedDecodes(body, k);
    }
  }

  /** Without controls: unless the characters are readable and the padding is at most what they lack. */
  lemma {:induction false} PlainDecodesIff(text: string)
    requires NoControls(text)
    ensures var n := |WithoutTrailing(text)|;
      && n <= |text|
      && (DecodeIRI(text).Some? <==> n % 4 != 1 && |text| - n <= Missing(n) && AllReadable(text[..n]))
  {
    DecodesIff(text);
    ControlFree(text);
    TrailingIsPadding(text);
    PaddingNeeded(|WithoutTrailing(text)|, |text|);
  }
}
