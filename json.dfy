/** `json.dumps` on a list of strings, with its default settings: `ensure_ascii`
    escaping, `", "` between items, lower-case hexadecimal in `\uXXXX` escapes and
    a surrogate pair for characters beyond the Basic Multilingual Plane. A decoder
    for what it writes is the encoder's partner. */
module Json {
  import opened Outcomes

  const HexDigits: string := "0123456789abcdef"

  /** The four lower-case hexadecimal digits of a 16-bit value. */
  function Hex4(n: nat): (r: string)
    requires n < 0x10000
    ensures |r| == 4
  {
    [HexDigits[n / 0x1000], HexDigits[n / 0x100 % 16], HexDigits[n / 16 % 16], HexDigits[n % 16]]
  }

  /** The value of one hexadecimal digit, in either case. */
  function HexValue(c: char): Option<nat>
  {
    if '0' <= c <= '9' then Some(c as int - '0' as int)
    else if 'a' <= c <= 'f' then Some(c as int - 'a' as int + 10)
    else if 'A' <= c <= 'F' then Some(c as int - 'A' as int + 10)
    else None
  }

  function ParseHex4(s: string): (r: Option<nat>)
    requires |s| == 4
    ensures r.Some? ==> r.value < 0x10000
  {
    match (HexValue(s[0]), HexValue(s[1]), HexValue(s[2]), HexValue(s[3]))
    case (Some(a), Some(b), Some(c), Some(d)) =>
      if a < 16 && b < 16 && c < 16 && d < 16 then Some(((a * 16 + b) * 16 + c) * 16 + d) else None
    case _ => None
  }

  lemma HexDigitValue(d: nat)
    requires d < 16
    ensures HexValue(HexDigits[d]) == Some(d)
  {
  }

  /** The four digits recombine into the value. */
  lemma Hex4Digits(n: nat)
    requires n < 0x10000
    ensures ((n / 0x1000 * 16 + n / 0x100 % 16) * 16 + n / 16 % 16) * 16 + n % 16 == n
  {
    assert n / 0x100 == n / 0x1000 * 16 + n / 0x100 % 16;
    assert n / 16 == (n / 0x100) * 16 + n / 16 % 16;
    assert n == (n / 16) * 16 + n % 16;
  }

  lemma Hex4RoundTrip(n: nat)
    requires n < 0x10000
    ensures ParseHex4(Hex4(n)) == Some(n)
  {
    HexDigitValue(n / 0x1000);
    HexDigitValue(n / 0x100 % 16);
    HexDigitValue(n / 16 % 16);
    HexDigitValue(n % 16);
    Hex4Digits(n);
  }

  lemma Hex4Printable(n: nat)
    requires n < 0x10000
    ensures PrintableAscii(Hex4(n))
  {
    var r := Hex4(n);
    forall i | 0 <= i < 4 ensures ' ' <= r[i] <= '~' {
      assert r[i] in HexDigits;
    }
  }

  const Backspace: char := 8 as char
  const FormFeed: char := 12 as char

  /** How one character of a string is written. */
  function EscapeChar(c: char): string
  {
    if c == '"' then "\\\""
    else if c == '\\' then "\\\\"
    else if c == '\n' then "\\n"
    else if c == '\r' then "\\r"
    else if c == '\t' then "\\t"
    else if c == Backspace then "\\b"
    else if c == FormFeed then "\\f"
    else if ' ' <= c <= '~' then [c]
    else if c as int < 0x10000 then "\\u" + Hex4(c as int)
    else
      "\\u" + Hex4(HighSurrogate(c)) + "\\u" + Hex4(LowSurrogate(c))
  }

  /** The high surrogate of a character beyond the Basic Multilingual Plane: its top ten
      bits above 0x10000. */
  function HighSurrogate(c: char): (h: nat)
    requires c as int >= 0x10000
    ensures 0xD800 <= h < 0xDC00
  {
    0xD800 + (c as int - 0x10000) / 0x400
  }

  /** The low surrogate: the bottom ten bits. */
  function LowSurrogate(c: char): (l: nat)
    requires c as int >= 0x10000
    ensures 0xDC00 <= l < 0xE000
  {
    0xDC00 + (c as int - 0x10000) % 0x400
  }

  /** The escaped body of a string literal. */
  function Escaped(s: string): string
  {
    if s == [] then [] else EscapeChar(s[0]) + Escaped(s[1..])
  }

  /** `json.dumps(s)` for a string. */
  function Quoted(s: string): string
  {
    "\"" + Escaped(s) + "\""
  }

  /** The items of a list, each written as a string literal, separated by `", "`. */
  function Items(ss: seq<string>): string
  {
    if ss == [] then []
    else if |ss| == 1 then Quoted(ss[0])
    else Quoted(ss[0]) + ", " + Items(ss[1..])
  }

  /** `json.dumps(ss)` for a list of strings. */
  function ArrayOf(ss: seq<string>): string
  {
    "[" + Items(ss) + "]"
  }

  predicate PrintableAscii(s: string)
  {
    forall i :: 0 <= i < |s| ==> ' ' <= s[i] <= '~'
  }

  lemma PrintableConcat(a: string, b: string)
    requires PrintableAscii(a) && PrintableAscii(b)
    ensures PrintableAscii(a + b)
  {
    forall i | 0 <= i < |a + b| ensures ' ' <= (a + b)[i] <= '~' {
      if i >= |a| {
        assert (a + b)[i] == b[i - |a|];
      }
    }
  }

  lemma UnicodeEscapePrintable(n: nat)
    requires n < 0x10000
    ensures PrintableAscii("\\u" + Hex4(n))
  {
    Hex4Printable(n);
    PrintableConcat("\\u", Hex4(n));
  }

  lemma PairPrintable(c: char)
    requires c as int >= 0x10000
    ensures PrintableAscii(EscapeChar(c))
  {
    EscapesPrintable(HighSurrogate(c), LowSurrogate(c), EscapeChar(c));
  }

  lemma EscapesPrintable(h: nat, l: nat, s: string)
    requires h < 0x10000 && l < 0x10000
    requires s == "\\u" + Hex4(h) + "\\u" + Hex4(l)
    ensures PrintableAscii(s)
  {
    UnicodeEscapePrintable(h);
    UnicodeEscapePrintable(l);
    PrintableConcat("\\u" + Hex4(h), "\\u" + Hex4(l));
    assert s == ("\\u" + Hex4(h)) + ("\\u" + Hex4(l));
  }

  lemma EscapeCharPrintable(c: char)
    ensures PrintableAscii(EscapeChar(c))
  {
    if c as int >= 0x10000 {
      PairPrintable(c);
    } else if EscapeChar(c) == "\\u" + Hex4(c as int) {
      UnicodeEscapePrintable(c as int);
    }
  }

  lemma {:induction false} EscapedPrintable(s: string)
    ensures PrintableAscii(Escaped(s))
  {
    if s != [] {
      EscapedPrintable(s[1..]);
      EscapeCharPrintable(s[0]);
    }
  }

  lemma {:induction false} ItemsPrintable(ss: seq<string>)
    ensures PrintableAscii(Items(ss))
  {
    if |ss| == 1 {
      QuotedPrintable(ss[0]);
    } else if |ss| > 1 {
      QuotedPrintable(ss[0]);
      ItemsPrintable(ss[1..]);
      PrintableConcat(Quoted(ss[0]), ", ");
      PrintableConcat(Quoted(ss[0]) + ", ", Items(ss[1..]));
    }
  }

  lemma QuotedPrintable(s: string)
    ensures PrintableAscii(Quoted(s))
  {
    EscapedPrintable(s);
    PrintableConcat("\"", Escaped(s));
    PrintableConcat("\"" + Escaped(s), "\"");
  }

  /** `ensure_ascii`: the text written holds printable ASCII only, so neither a line
      break nor any non-ASCII character reaches the CSV field; it opens with `[`. */
  lemma ArrayOfPrintable(ss: seq<string>)
    ensures PrintableAscii(ArrayOf(ss))
    ensures ArrayOf(ss)[0] == '['
  {
    ItemsPrintable(ss);
  }

  /** The character a `\uXXXX` escape (or a surrogate pair of them) at the head of `s`
      stands for, and the length of the escape. */
  function UnicodeEscape(s: string): Option<(char, nat)>
  {
    if |s| < 6 || s[0] != '\\' || s[1] != 'u' then None
    else match ParseHex4(s[2..6])
      case None => None
      case Some(h) =>
        if h < 0xD800 || 0xE000 <= h then Some((h as char, 6))
        else if 0xDC00 <= h || |s| < 12 || s[6] != '\\' || s[7] != 'u' then None
        else match ParseHex4(s[8..12])
          case None => None
          case Some(l) =>
            if 0xDC00 <= l < 0xE000 then Some(((0x10000 + (h - 0xD800) * 0x400 + (l - 0xDC00)) as char, 12))
            else None
  }

  /** The character an escape at the head of `s` stands for, and its length. */
  function EscapeAt(s: string): (r: Option<(char, nat)>)
    requires |s| >= 1 && s[0] == '\\'
    ensures r.Some? ==> 2 <= r.value.1 <= |s|
  {
    if |s| < 2 then None
    else if s[1] == '"' then Some(('"', 2))
    else if s[1] == '\\' then Some(('\\', 2))
    else if s[1] == '/' then Some(('/', 2))
    else if s[1] == 'n' then Some(('\n', 2))
    else if s[1] == 'r' then Some(('\r', 2))
    else if s[1] == 't' then Some(('\t', 2))
    else if s[1] == 'b' then Some((Backspace, 2))
    else if s[1] == 'f' then Some((FormFeed, 2))
    else UnicodeEscape(s)
  }

  /** A scan result with `c` put in front of the value read. */
  function Prepend(c: char, r: Option<(string, string)>): Option<(string, string)>
  {
    match r
    case None => None
    case Some((v, rest)) => Some(([c] + v, rest))
  }

  /** Reads the rest of a string literal whose opening quote has been consumed: its
      value and what follows the closing quote. */
  function ScanString(s: string): (r: Option<(string, string)>)
    ensures r.Some? ==> |r.value.1| < |s|
    decreases |s|
  {
    if s == [] then None
    else if s[0] == '"' then Some(([], s[1..]))
    else if s[0] == '\\' then
      match EscapeAt(s)
      case None => None
      case Some((c, k)) => Prepend(c, ScanString(s[k..]))
    else if s[0] < ' ' then None
    else Prepend(s[0], ScanString(s[1..]))
  }

  /** An escape of length `k` standing for `c`, followed by `tail`, scans as `c` and then `tail`. */
  lemma EscapeScans(s: string, c: char, k: nat, tail: string)
    requires |s| >= 1 && s[0] == '\\' && EscapeAt(s) == Some((c, k))
    requires s[k..] == tail
    ensures ScanString(s) == Prepend(c, ScanString(tail))
  {
  }

  lemma ShortEscapeScans(c: char, tail: string)
    requires c == '"' || c == '\\' || c == '\n' || c == '\r' || c == '\t' || c == Backspace || c == FormFeed
    ensures ScanString(EscapeChar(c) + tail) == Prepend(c, ScanString(tail))
  {
    var s := EscapeChar(c) + tail;
    assert |EscapeChar(c)| == 2 && s[0] == '\\';
    assert s[1] == EscapeChar(c)[1];
    EscapeScans(s, c, 2, tail);
  }

  /** A `\\uXXXX` escape of a character of the Basic Multilingual Plane, then `tail`,
      scans as the character and then `tail`. */
  lemma BmpScans(s: string, c: char, tail: string)
    requires c as int < 0x10000
    requires |s| >= 6 && s[0] == '\\' && s[1] == 'u' && s[2..6] == Hex4(c as int) && s[6..] == tail
    ensures ScanString(s) == Prepend(c, ScanString(tail))
  {
    Hex4RoundTrip(c as int);
    assert UnicodeEscape(s) == Some((c, 6));
    EscapeAtUnicode(s);
    EscapeScans(s, c, 6, tail);
  }

  lemma BmpEscapeScans(c: char, tail: string)
    requires c as int < 0x10000
    ensures ScanString("\\u" + Hex4(c as int) + tail) == Prepend(c, ScanString(tail))
  {
    var s := "\\u" + Hex4(c as int) + tail;
    assert s[2..6] == Hex4(c as int) && s[6..] == tail;
    BmpScans(s, c, tail);
  }

  /** The surrogate pair of a character beyond the Basic Multilingual Plane: a high and a
      low surrogate that recombine into the character. */
  lemma SurrogatePair(c: char)
    requires c as int >= 0x10000
    ensures 0x10000 + (HighSurrogate(c) - 0xD800) * 0x400 + (LowSurrogate(c) - 0xDC00) == c as int
  {
  }

  /** A `\u` escape is read by `UnicodeEscape`. */
  lemma EscapeAtUnicode(s: string)
    requires |s| >= 2 && s[0] == '\\' && s[1] == 'u'
    ensures EscapeAt(s) == UnicodeEscape(s)
  {
  }

  /** Two `\uXXXX` escapes holding the surrogate pair of `c` stand for `c`. */
  lemma PairEscape(s: string, c: char, h: nat, l: nat)
    requires 0xD800 <= h < 0xDC00 && 0xDC00 <= l < 0xE000
    requires 0x10000 + (h - 0xD800) * 0x400 + (l - 0xDC00) == c as int
    requires |s| >= 12 && s[0] == '\\' && s[1] == 'u' && s[6] == '\\' && s[7] == 'u'
    requires s[2..6] == Hex4(h) && s[8..12] == Hex4(l)
    ensures UnicodeEscape(s) == Some((c, 12))
  {
    Hex4RoundTrip(h);
    Hex4RoundTrip(l);
  }

  /** Two `\uXXXX` escapes holding the surrogate pair of `c`, then `tail`, scan as `c`
      and then `tail`. */
  lemma PairScans(s: string, c: char, h: nat, l: nat, tail: string)
    requires 0xD800 <= h < 0xDC00 && 0xDC00 <= l < 0xE000
    requires 0x10000 + (h - 0xD800) * 0x400 + (l - 0xDC00) == c as int
    requires |s| >= 12 && s[0] == '\\' && s[1] == 'u' && s[6] == '\\' && s[7] == 'u'
    requires s[2..6] == Hex4(h) && s[8..12] == Hex4(l) && s[12..] == tail
    ensures ScanString(s) == Prepend(c, ScanString(tail))
  {
    PairEscape(s, c, h, l);
    EscapeAtUnicode(s);
    EscapeScans(s, c, 12, tail);
  }

  lemma PairEscapeScans(c: char, tail: string)
    requires c as int >= 0x10000
    ensures ScanString("\\u" + Hex4(HighSurrogate(c)) + "\\u" + Hex4(LowSurrogate(c)) + tail)
              == Prepend(c, ScanString(tail))
  {
    var h, l := HighSurrogate(c), LowSurrogate(c);
    SurrogatePair(c);
    var s := "\\u" + Hex4(h) + "\\u" + Hex4(l) + tail;
    assert s[2..6] == Hex4(h) && s[8..12] == Hex4(l) && s[6] == '\\' && s[7] == 'u' && s[12..] == tail;
    PairScans(s, c, h, l, tail);
  }

  /** Each escaped character reads back as itself. */
  lemma EscapeCharScans(c: char, tail: string)
    ensures ScanString(EscapeChar(c) + tail) == Prepend(c, ScanString(tail))
  {
    if c == '"' || c == '\\' || c == '\n' || c == '\r' || c == '\t' || c == Backspace || c == FormFeed {
      ShortEscapeScans(c, tail);
    } else if ' ' <= c <= '~' {
      var s := [c] + tail;
      assert s[1..] == tail;
    } else if c as int < 0x10000 {
      BmpEscapeScans(c, tail);
    } else {
      PairEscapeScans(c, tail);
    }
  }

  lemma {:induction false} EscapedScans(v: string, tail: string)
    ensures ScanString(Escaped(v) + "\"" + tail) == Some((v, tail))
  {
    if v == [] {
      assert Escaped(v) + "\"" + tail == "\"" + tail;
      assert ("\"" + tail)[1..] == tail;
    } else {
      EscapedScans(v[1..], tail);
      assert Escaped(v) + "\"" + tail == EscapeChar(v[0]) + (Escaped(v[1..]) + "\"" + tail);
      EscapeCharScans(v[0], Escaped(v[1..]) + "\"" + tail);
      assert [v[0]] + v[1..] == v;
    }
  }

  /** Reads list items, each a string literal, separated by `", "`, up to the closing `]`;
      returns the items and what follows the bracket. */
  function ScanItems(s: string): Option<(seq<string>, string)>
    decreases |s|
  {
    if s == [] || s[0] != '"' then None
    else
      match ScanString(s[1..])
      case None => None
      case Some((v, rest)) =>
        if |rest| >= 1 && rest[0] == ']' then Some(([v], rest[1..]))
        else if |rest| >= 2 && rest[0] == ',' && rest[1] == ' ' then
          match ScanItems(rest[2..])
          case None => None
          case Some((vs, after)) => Some(([v] + vs, after))
        else None
  }

  /** Reads a list of strings as `json.dumps` writes it. */
  function ParseArray(s: string): Option<seq<string>>
  {
    if |s| < 2 || s[0] != '[' then None
    else if s[1] == ']' then (if |s| == 2 then Some([]) else None)
    else
      match ScanItems(s[1..])
      case Some((vs, after)) => if after == [] then Some(vs) else None
      case None => None
  }

  /** One string literal, then `after`, scans as that string and then `after`. */
  lemma QuotedScans(v: string, after: string)
    ensures ScanString((Quoted(v) + after)[1..]) == Some((v, after))
  {
    var s := Quoted(v) + after;
    assert s[1..] == Escaped(v) + "\"" + after;
    EscapedScans(v, after);
  }

  lemma ItemsScanLast(v: string, tail: string)
    ensures ScanItems(Items([v]) + "]" + tail) == Some(([v], tail))
  {
    var s := Items([v]) + "]" + tail;
    assert s == Quoted(v) + ("]" + tail);
    QuotedScans(v, "]" + tail);
    assert ("]" + tail)[1..] == tail;
  }

  /** `ScanItems` on a literal followed by `", "` and more items. */
  lemma ScanItemsNext(s: string, v: string, more: string, vs: seq<string>, tail: string)
    requires s != [] && s[0] == '"' && ScanString(s[1..]) == Some((v, ", " + more))
    requires ScanItems(more) == Some((vs, tail))
    ensures ScanItems(s) == Some(([v] + vs, tail))
  {
    assert (", " + more)[2..] == more;
  }

  lemma Regroup(a: string, b: string, c: string, d: string, e: string)
    ensures a + b + c + d + e == a + (b + (c + d + e))
  {
  }

  /** A list of more than one item opens with the first item's literal and `", "`. */
  lemma ItemsHead(ss: seq<string>, tail: string)
    requires |ss| > 1
    ensures var s := Items(ss) + "]" + tail;
            s != [] && s[0] == '"' && ScanString(s[1..]) == Some((ss[0], ", " + (Items(ss[1..]) + "]" + tail)))
  {
    var more := Items(ss[1..]) + "]" + tail;
    Regroup(Quoted(ss[0]), ", ", Items(ss[1..]), "]", tail);
    QuotedScans(ss[0], ", " + more);
  }

  lemma ItemsScanMore(ss: seq<string>, tail: string)
    requires |ss| > 1
    requires ScanItems(Items(ss[1..]) + "]" + tail) == Some((ss[1..], tail))
    ensures ScanItems(Items(ss) + "]" + tail) == Some((ss, tail))
  {
    ItemsHead(ss, tail);
    ScanItemsNext(Items(ss) + "]" + tail, ss[0], Items(ss[1..]) + "]" + tail, ss[1..], tail);
    assert [ss[0]] + ss[1..] == ss;
  }

  lemma {:induction false} ItemsScan(ss: seq<string>, tail: string)
    requires ss != []
    ensures ScanItems(Items(ss) + "]" + tail) == Some((ss, tail))
  {
    if |ss| == 1 {
      ItemsScanLast(ss[0], tail);
      assert [ss[0]] == ss;
    } else {
      ItemsScan(ss[1..], tail);
      ItemsScanMore(ss, tail);
    }
  }

  /** What `json.dumps` writes for a list of strings reads back as that list. */
  lemma ArrayRoundTrip(ss: seq<string>)
    ensures ParseArray(ArrayOf(ss)) == Some(ss)
  {
    if ss == [] {
      assert ArrayOf(ss) == "[]";
    } else {
      var s := ArrayOf(ss);
      ItemsScan(ss, "");
      assert s[1..] == Items(ss) + "]" + "";
      assert s[1] == '"';
    }
  }
}
