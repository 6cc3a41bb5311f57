/** JSON literals as text, and a scanner that finds where a literal ends. */
module JsonText {
  import opened Strings

  const HEX := "0123456789abcdef"

  /** The letter after the backslash of a two-character escape; a space when there is none. */
  function ShortEscape(c: char): char
  {
    if c == '\"' || c == '\\' then c
    else if c as int == 8 then 'b'
    else if c as int == 9 then 't'
    else if c as int == 10 then 'n'
    else if c as int == 12 then 'f'
    else if c as int == 13 then 'r'
    else ' '
  }

  function EscapeChar(c: char): (r: string)
    ensures r != "" && r[0] != '\"'
  {
    if ShortEscape(c) != ' ' then ['\\', ShortEscape(c)]
    else if c as int < 32 then ['\\', 'u', '0', '0', HEX[c as int / 16], HEX[c as int % 16]]
    else [c]
  }

  lemma Assoc<T>(a: seq<T>, b: seq<T>, c: seq<T>)
    ensures (a + b) + c == a + (b + c)
  {
  }

  lemma Rest<T>(a: seq<T>, b: seq<T>)
    ensures (a + b)[|a|..] == b && (a + b)[..|a|] == a
  {
  }

  function Escape(s: string): string
  {
    if s == "" then "" else EscapeChar(s[0]) + Escape(s[1..])
  }

  /** `JSON.stringify` of a string. */
  function Quote(s: string): string
  {
    "\"" + Escape(s) + "\""
  }

  function Hex(c: char): int
  {
    if '0' <= c <= '9' then c as int - '0' as int
    else if 'a' <= c <= 'f' then c as int - 'a' as int + 10
    else if 'A' <= c <= 'F' then c as int - 'A' as int + 10
    else 0
  }

  /** The character that an escape stands for in JSON (section 7 of RFC 8259), below U+0100. */
  function Escaped(s: string): (r: (char, nat))
    requires s != ""
    ensures 0 < r.1 <= |s|
  {
    if s[0] != '\\' || |s| == 1 then (s[0], 1)
    else if s[1] == 'b' then (8 as char, 2)
    else if s[1] == 't' then (9 as char, 2)
    else if s[1] == 'n' then (10 as char, 2)
    else if s[1] == 'f' then (12 as char, 2)
    else if s[1] == 'r' then (13 as char, 2)
    else if s[1] == 'u' && |s| >= 6 then ((16 * Hex(s[4]) + Hex(s[5])) as char, 6)
    else (s[1], 2)
  }

  /** The string between the quotes of a JSON text. */
  function Unescape(s: string): string
  {
    if s == "" then "" else [Escaped(s).0] + Unescape(s[Escaped(s).1..])
  }

  lemma EscapedBack(c: char, x: string)
    ensures Escaped(EscapeChar(c) + x) == (c, |EscapeChar(c)|)
  {
    var e := EscapeChar(c);
    var s := e + x;
    assert forall i :: 0 <= i < |e| ==> s[i] == e[i];
    if |e| == 6 {
      HexBack(c as int / 16);
      HexBack(c as int % 16);
    }
  }

  lemma HexBack(d: nat)
    requires d < 16
    ensures Hex(HEX[d]) == d
  {
  }

  /** JSON parsers read the text of a string as that string. */
  lemma {:induction false} UnescapeEscape(s: string)
    ensures Unescape(Escape(s)) == s
  {
    if s != "" {
      EscapedBack(s[0], Escape(s[1..]));
      Rest(EscapeChar(s[0]), Escape(s[1..]));
      UnescapeEscape(s[1..]);
      assert s == [s[0]] + s[1..];
    }
  }

  /** The escapes form a prefix code. */
  lemma EscapeCharSplit(c: char, d: char, x: string, y: string)
    requires EscapeChar(c) + x == EscapeChar(d) + y
    ensures c == d && x == y
  {
    var l, r := EscapeChar(c) + x, EscapeChar(d) + y;
    assert l[0] == r[0] && l[0] == EscapeChar(c)[0] && r[0] == EscapeChar(d)[0];
    if |EscapeChar(c)| > 1 {
      assert l[1] == r[1] && l[1] == EscapeChar(c)[1] && r[1] == EscapeChar(d)[1];
      if |EscapeChar(c)| == 6 {
        assert l[4] == EscapeChar(c)[4] && r[4] == EscapeChar(d)[4];
        assert l[5] == EscapeChar(c)[5] && r[5] == EscapeChar(d)[5];
        HexInjective(c as int / 16, d as int / 16);
        HexInjective(c as int % 16, d as int % 16);
      }
    }
    assert c == d;
    assert x == l[|EscapeChar(c)|..] && y == r[|EscapeChar(c)|..];
  }

  lemma HexInjective(i: nat, j: nat)
    requires i < 16 && j < 16 && HEX[i] == HEX[j]
    ensures i == j
  {
  }

  lemma EscapeHead(s: string, x: string)
    requires s != ""
    ensures Escape(s) + x == EscapeChar(s[0]) + (Escape(s[1..]) + x)
  {
    Assoc(EscapeChar(s[0]), Escape(s[1..]), x);
  }

  lemma {:induction false} EscapeSplit(s: string, t: string, x: string, y: string)
    requires Escape(s) + ("\"" + x) == Escape(t) + ("\"" + y)
    ensures s == t && x == y
  {
    var p, q := "\"" + x, "\"" + y;
    if s != "" { EscapeHead(s, p); }
    if t != "" { EscapeHead(t, q); }
    if s == "" || t == "" {
      assert Escape("") + p == p && Escape("") + q == q;
      assert p[0] == '\"' && q[0] == '\"';
      Rest("\"", x);
      Rest("\"", y);
    } else {
      EscapeCharSplit(s[0], t[0], Escape(s[1..]) + p, Escape(t[1..]) + q);
      EscapeSplit(s[1..], t[1..], x, y);
      assert s == [s[0]] + s[1..] && t == [t[0]] + t[1..];
    }
  }

  lemma QuoteHead(s: string, x: string)
    ensures Quote(s) + x == "\"" + (Escape(s) + ("\"" + x))
  {
    Assoc("\"" + Escape(s), "\"", x);
    Assoc("\"", Escape(s), "\"" + x);
  }

  /** Two quoted strings at the head of the same text are the same string. */
  lemma QuoteSplit(s: string, t: string, x: string, y: string)
    requires Quote(s) + x == Quote(t) + y
    ensures s == t && x == y
  {
    QuoteHead(s, x);
    QuoteHead(t, y);
    Rest("\"", Escape(s) + ("\"" + x));
    Rest("\"", Escape(t) + ("\"" + y));
    EscapeSplit(s, t, x, y);
  }

  /** Decimal digits of a natural number, most significant first. */
  function Digits(n: nat): (r: string)
    ensures r != "" && forall i :: 0 <= i < |r| ==> '0' <= r[i] <= '9'
  {
    if n < 10 then [HEX[n]] else Digits(n / 10) + [HEX[n % 10]]
  }

  /** `JSON.stringify` of an integer. */
  function IntText(n: int): (r: string)
    ensures r != "" && forall i :: 0 <= i < |r| ==> '0' <= r[i] <= '9' || r[i] == '-'
  {
    if n < 0 then "-" + Digits(-n) else Digits(n)
  }

  /** What decimal digits stand for. */
  function DigitsValue(s: string): int
  {
    if s == "" then 0 else 10 * DigitsValue(s[..|s| - 1]) + (s[|s| - 1] as int - '0' as int)
  }

  lemma HexDigit(d: nat)
    requires d < 10
    ensures HEX[d] as int - '0' as int == d
  {
  }

  /** An integer is written with the digits that stand for it, and no leading zero. */
  lemma {:induction false} DigitsStandFor(n: nat)
    ensures DigitsValue(Digits(n)) == n && (n > 0 ==> Digits(n)[0] != '0')
  {
    var s := Digits(n);
    HexDigit(n % 10);
    if n < 10 {
      assert s[..0] == "";
    } else {
      DigitsStandFor(n / 10);
      assert s[..|s| - 1] == Digits(n / 10);
    }
  }

  lemma {:induction false} DigitsInjective(m: nat, n: nat)
    requires Digits(m) == Digits(n)
    ensures m == n
  {
    var a, b := Digits(m), Digits(n);
    assert a[|a| - 1] == HEX[m % 10] && b[|b| - 1] == HEX[n % 10];
    HexInjective(m % 10, n % 10);
    if m >= 10 && n >= 10 {
      assert a[..|a| - 1] == Digits(m / 10) && b[..|b| - 1] == Digits(n / 10);
      DigitsInjective(m / 10, n / 10);
    }
  }

  lemma IntTextSign(n: int)
    ensures n < 0 <==> IntText(n)[0] == '-'
  {
  }

  lemma NegativeTextInjective(m: nat, n: nat)
    requires "-" + Digits(m) == "-" + Digits(n)
    ensures m == n
  {
    Rest("-", Digits(m));
    Rest("-", Digits(n));
    DigitsInjective(m, n);
  }

  lemma {:induction false} IntTextInjective(m: int, n: int)
    requires IntText(m) == IntText(n)
    ensures m == n
  {
    IntTextSign(m);
    IntTextSign(n);
    if m < 0 {
      NegativeTextInjective(-m, -n);
    } else {
      DigitsInjective(m, n);
    }
  }

  /** Characters that cannot belong to a literal outside its brackets and quotes. */
  predicate IsEnd(c: char)
  {
    c == ',' || c == ']' || c == '}' || c == '&'
  }

  predicate Ends(x: string)
  {
    x == "" || IsEnd(x[0])
  }

  /**
   * How many characters of s the current literal still takes, `depth` brackets deep
   * and inside a string or not.
   */
  function Scan(s: string, depth: nat, quoted: bool): nat
  {
    if s == "" then 0
    else if quoted then
      if s[0] == '\\' && |s| > 1 then 2 + Scan(s[2..], depth, true)
      else 1 + Scan(s[1..], depth, s[0] != '\"')
    else if depth == 0 && IsEnd(s[0]) then 0
    else
      var deeper := if s[0] == '[' || s[0] == '{' then depth + 1
                    else if (s[0] == ']' || s[0] == '}') && depth > 0 then depth - 1
                    else depth;
      1 + Scan(s[1..], deeper, s[0] == '\"')
  }

  /** t is taken whole, whatever follows and at every depth. */
  ghost predicate Token(t: string)
  {
    t != "" && forall depth: nat, x: string :: Scan(t + x, depth, false) == |t| + Scan(x, depth, false)
  }

  predicate Plain(c: char)
  {
    !IsEnd(c) && c != '\"' && c != '[' && c != '{'
  }

  lemma {:induction false} ScanPlain(w: string, depth: nat, x: string)
    requires forall i :: 0 <= i < |w| ==> Plain(w[i])
    ensures Scan(w + x, depth, false) == |w| + Scan(x, depth, false)
  {
    if w == "" {
      assert w + x == x;
    } else {
      assert (w + x)[1..] == w[1..] + x;
      ScanPlain(w[1..], depth, x);
    }
  }

  lemma PlainToken(w: string)
    requires w != "" && forall i :: 0 <= i < |w| ==> Plain(w[i])
    ensures Token(w)
  {
    forall depth: nat, x: string ensures Scan(w + x, depth, false) == |w| + Scan(x, depth, false) {
      ScanPlain(w, depth, x);
    }
  }

  lemma ScanEscapeChar(c: char, depth: nat, x: string)
    ensures Scan(EscapeChar(c) + x, depth, true) == |EscapeChar(c)| + Scan(x, depth, true)
  {
    var e := EscapeChar(c);
    if |e| == 1 {
      Rest(e, x);
    } else {
      assert (e + x)[2..] == e[2..] + x;
      ScanHex(e[2..], depth, x);
    }
  }

  /** Inside a string, characters other than quote and backslash are taken one by one. */
  lemma {:induction false} ScanHex(w: string, depth: nat, x: string)
    requires forall i :: 0 <= i < |w| ==> w[i] != '\"' && w[i] != '\\'
    ensures Scan(w + x, depth, true) == |w| + Scan(x, depth, true)
  {
    if w == "" {
      assert w + x == x;
    } else {
      assert (w + x)[1..] == w[1..] + x;
      ScanHex(w[1..], depth, x);
    }
  }

  lemma {:induction false} ScanEscape(s: string, depth: nat, x: string)
    ensures Scan(Escape(s) + x, depth, true) == |Escape(s)| + Scan(x, depth, true)
  {
    if s == "" {
      assert Escape(s) + x == x;
    } else {
      EscapeHead(s, x);
      ScanEscapeChar(s[0], depth, Escape(s[1..]) + x);
      ScanEscape(s[1..], depth, x);
    }
  }

  lemma QuoteToken(s: string)
    ensures Token(Quote(s))
  {
    forall depth: nat, x: string ensures Scan(Quote(s) + x, depth, false) == |Quote(s)| + Scan(x, depth, false) {
      QuoteHead(s, x);
      Rest("\"", Escape(s) + ("\"" + x));
      ScanEscape(s, depth, "\"" + x);
      Rest("\"", x);
    }
  }

  lemma EntryHead(key: string, t: string, x: string)
    ensures (Quote(key) + ":" + t) + x == Quote(key) + (":" + (t + x))
  {
    Assoc(Quote(key) + ":", t, x);
    Assoc(Quote(key), ":", t + x);
  }

  /** Object entries: a quoted key, a colon and a literal. */
  lemma EntryToken(key: string, t: string)
    requires Token(t)
    ensures Token(Quote(key) + ":" + t)
  {
    QuoteToken(key);
    var e := Quote(key) + ":" + t;
    forall depth: nat, x: string ensures Scan(e + x, depth, false) == |e| + Scan(x, depth, false) {
      EntryHead(key, t, x);
      Rest(":", t + x);
      assert Scan(":" + (t + x), depth, false) == 1 + Scan(t + x, depth, false);
    }
  }

  lemma {:induction false} ScanJoin(parts: seq<string>, depth: nat, x: string)
    requires depth > 0 && forall i :: 0 <= i < |parts| ==> Token(parts[i])
    ensures Scan(Join(parts, ",") + x, depth, false) == |Join(parts, ",")| + Scan(x, depth, false)
  {
    if parts == [] {
      assert Join(parts, ",") + x == x;
    } else if |parts| > 1 {
      var rest := Join(parts[1..], ",");
      assert Join(parts, ",") + x == parts[0] + ("," + (rest + x));
      assert ("," + (rest + x))[1..] == rest + x;
      ScanJoin(parts[1..], depth, x);
    }
  }

  lemma {:induction false} BracketToken(open: char, parts: seq<string>, close: char)
    requires (open == '[' && close == ']') || (open == '{' && close == '}')
    requires forall i :: 0 <= i < |parts| ==> Token(parts[i])
    ensures Token([open] + Join(parts, ",") + [close])
  {
    var j := Join(parts, ",");
    var t := [open] + j + [close];
    forall depth: nat, x: string ensures Scan(t + x, depth, false) == |t| + Scan(x, depth, false) {
      Assoc([open] + j, [close], x);
      Assoc([open], j, [close] + x);
      Rest([open], j + ([close] + x));
      ScanJoin(parts, depth + 1, [close] + x);
      Rest([close], x);
    }
  }

  /** Two literals at the head of the same text are the same literal. */
  lemma TokenSplit(s: string, t: string, x: string, y: string)
    requires Token(s) && Token(t) && Ends(x) && Ends(y) && s + x == t + y
    ensures s == t && x == y
  {
    assert Scan(s + x, 0, false) == |s| && Scan(t + y, 0, false) == |t|;
    assert s == (s + x)[..|s|] && t == (t + y)[..|t|];
    assert x == (s + x)[|s|..] && y == (t + y)[|t|..];
  }

  lemma JoinHead(parts: seq<string>, x: string)
    requires parts != []
    ensures Join(parts, ",") + x == parts[0] + (if |parts| == 1 then x else "," + (Join(parts[1..], ",") + x))
  {
    if |parts| > 1 {
      var rest := Join(parts[1..], ",");
      Assoc(parts[0] + ",", rest, x);
      Assoc(parts[0], ",", rest + x);
    }
  }

  /** A comma-separated list of literals determines its members. */
  lemma {:induction false} JoinSplit(a: seq<string>, b: seq<string>, close: char, x: string, y: string)
    requires close == ']' || close == '}'
    requires forall i :: 0 <= i < |a| ==> Token(a[i])
    requires forall i :: 0 <= i < |b| ==> Token(b[i])
    requires Join(a, ",") + ([close] + x) == Join(b, ",") + ([close] + y)
    ensures a == b && x == y
  {
    var u, w := [close] + x, [close] + y;
    if a != [] { JoinHead(a, u); }
    if b != [] { JoinHead(b, w); }
    assert Join([], ",") + u == u && Join([], ",") + w == w;
    Rest([close], x);
    Rest([close], y);
    if a == [] || b == [] {
      assert Scan(u, 0, false) == 0 && Scan(w, 0, false) == 0;
    } else {
      var ra := if |a| == 1 then u else "," + (Join(a[1..], ",") + u);
      var rb := if |b| == 1 then w else "," + (Join(b[1..], ",") + w);
      TokenSplit(a[0], b[0], ra, rb);
      assert ra[0] == rb[0];
      if |a| > 1 {
        Rest(",", Join(a[1..], ",") + u);
        Rest(",", Join(b[1..], ",") + w);
        JoinSplit(a[1..], b[1..], close, x, y);
      }
      assert a == [a[0]] + a[1..] && b == [b[0]] + b[1..];
    }
  }
}
