/** Canonical JSON documents (`_canonical_json`, `_strict_json_bytes`). A document is ASCII
    text whose only newline is its last character, so no proper prefix of a document is a
    document: a torn write is always recognised. Floats do not occur in any journal and are not modelled. */
module CanonicalJson {
  import opened Common
  import opened Sorting

  /** A dict is its items in key order, as the canonical form writes them. */
  datatype Json =
    | JNull
    | JBool(b: bool)
    | JInt(n: int)
    | JStr(s: string)
    | JArr(items: seq<Json>)
    | JObj(fields: seq<Field>)

  datatype Field = Field(key: string, value: Json)

  // ------------------------------------------------------------------------- digits

  predicate IsDigit(c: char) { '0' <= c <= '9' }

  /** A text that cannot continue a number. */
  predicate NoDigit(s: string) { s == "" || !IsDigit(s[0]) }

  function Decimal(n: nat): (r: string)
    ensures r != "" && forall c | c in r :: IsDigit(c)
  {
    if n < 10 then [(n + '0' as int) as char] else Decimal(n / 10) + [(n % 10 + '0' as int) as char]
  }

  /** The longest run of digits at the front. */
  function DigitRun(s: string): (r: string)
    ensures r <= s
  {
    if s == "" || !IsDigit(s[0]) then "" else [s[0]] + DigitRun(s[1..])
  }

  function DigitValue(c: char): nat { if IsDigit(c) then c as int - '0' as int else 0 }

  function Value(digits: string): nat
  {
    if digits == "" then 0 else Value(digits[..|digits| - 1]) * 10 + DigitValue(digits[|digits| - 1])
  }

  lemma {:induction false} DigitRunOf(digits: string, s: string)
    requires (forall c | c in digits :: IsDigit(c)) && NoDigit(s)
    ensures DigitRun(digits + s) == digits
  {
    if digits == "" {
      assert digits + s == s;
    } else {
      assert (digits + s)[1..] == digits[1..] + s;
      DigitRunOf(digits[1..], s);
    }
  }

  lemma {:induction false} ValueOfDecimal(n: nat)
    ensures Value(Decimal(n)) == n
  {
    if n >= 10 {
      ValueOfDecimal(n / 10);
      assert Decimal(n)[..|Decimal(n)| - 1] == Decimal(n / 10);
    }
  }

  // ---------------------------------------------------------------- character escapes

  function HexValue(c: char): (d: Option<nat>)
    ensures d.Some? ==> d.value < 16
  {
    if '0' <= c <= '9' then Some(c as int - '0' as int)
    else if 'a' <= c <= 'f' then Some(c as int - 'a' as int + 10)
    else None
  }

  function HexDigit(d: nat): (c: char)
    requires d < 16
    ensures HexValue(c) == Some(d) && c != '\n'
  {
    if d < 10 then (d + '0' as int) as char else (d - 10 + 'a' as int) as char
  }

  function Hex4(n: nat): (r: string)
    requires n < 0x1_0000
    ensures |r| == 4 && '\n' !in r
  {
    [HexDigit(n / 16 / 16 / 16), HexDigit(n / 16 / 16 % 16), HexDigit(n / 16 % 16), HexDigit(n % 16)]
  }

  function UnHex4(s: string): (r: Option<nat>)
    requires |s| >= 4
    ensures r.Some? ==> r.value < 0x1_0000
  {
    var a, b, c, d := HexValue(s[0]), HexValue(s[1]), HexValue(s[2]), HexValue(s[3]);
    if a.Some? && b.Some? && c.Some? && d.Some?
    then Some(((a.value * 16 + b.value) * 16 + c.value) * 16 + d.value)
    else None
  }

  lemma UnHex4Hex4(n: nat, s: string)
    requires n < 0x1_0000
    ensures UnHex4(Hex4(n) + s) == Some(n)
  {
    var text, hex := Hex4(n) + s, Hex4(n);
    assert text[0] == hex[0] && text[1] == hex[1] && text[2] == hex[2] && text[3] == hex[3];
    assert HexValue(hex[0]) == Some(n / 16 / 16 / 16) && HexValue(hex[1]) == Some(n / 16 / 16 % 16);
    assert HexValue(hex[2]) == Some(n / 16 % 16) && HexValue(hex[3]) == Some(n % 16);
  }

  predicate Plain(c: char) { ' ' <= c <= '~' && c != '"' && c != '\\' }

  predicate HasShortEscape(c: char)
  {
    c == '"' || c == '\\' || c == '\n' || c == '\r' || c == '\t' || c as int == 8 || c as int == 12
  }

  /** One character of a JSON string literal with ensure_ascii: short escapes, \uXXXX, and
      a surrogate pair beyond the basic plane. */
  function Escape(c: char): (r: string)
    ensures r != "" && r[0] != '"'
    ensures '\n' !in r
  {
    if Plain(c) then [c]
    else if c == '"' then "\\\""
    else if c == '\\' then "\\\\"
    else if c == '\n' then "\\n"
    else if c == '\r' then "\\r"
    else if c == '\t' then "\\t"
    else if c as int == 8 then "\\b"
    else if c as int == 12 then "\\f"
    else if c as int < 0x1_0000 then "\\u" + Hex4(c as int)
    else
      var v := c as int - 0x1_0000;
      "\\u" + Hex4(0xD800 + v / 1024) + "\\u" + Hex4(0xDC00 + v % 1024)
  }

  function ShortEscape(c: char): (r: Option<char>)
  {
    if c == '"' then Some('"')
    else if c == '\\' then Some('\\')
    else if c == 'n' then Some('\n')
    else if c == 'r' then Some('\r')
    else if c == 't' then Some('\t')
    else if c == 'b' then Some(8 as char)
    else if c == 'f' then Some(12 as char)
    else None
  }

  /** Read one escaped character; the rest is returned. */
  function Unescape(s: string): (r: Option<(char, string)>)
    ensures r.Some? ==> |r.value.1| < |s|
  {
    if s == "" then None
    else if s[0] != '\\' then (if Plain(s[0]) then Some((s[0], s[1..])) else None)
    else if |s| < 2 then None
    else if s[1] != 'u' then
      (if ShortEscape(s[1]).Some? then Some((ShortEscape(s[1]).value, s[2..])) else None)
    else if |s| < 6 then None
    else
      var high := UnHex4(s[2..]);
      if high.None? then None
      else if high.value < 0xD800 || 0xE000 <= high.value then Some((high.value as char, s[6..]))
      else if |s| < 12 || s[6] != '\\' || s[7] != 'u' || 0xDC00 <= high.value then None
      else
        var low := UnHex4(s[8..]);
        if low.None? || !(0xDC00 <= low.value < 0xE000) then None
        else Some(((0x1_0000 + (high.value - 0xD800) * 1024 + (low.value - 0xDC00)) as char, s[12..]))
  }

  lemma UnescapeShort(c: char, s: string)
    requires HasShortEscape(c)
    ensures Unescape(Escape(c) + s) == Some((c, s))
  {
    var text := Escape(c) + s;
    assert |Escape(c)| == 2 && text[0] == '\\' && text[1] == Escape(c)[1];
    assert text[2..] == s;
  }

  lemma UnescapeBasic(n: nat, s: string)
    requires n < 0xD800 || 0xE000 <= n < 0x1_0000
    ensures Unescape("\\u" + Hex4(n) + s) == Some((n as char, s))
  {
    var text := "\\u" + Hex4(n) + s;
    assert text[2..] == Hex4(n) + s;
    UnHex4Hex4(n, s);
    assert text[6..] == s;
  }

  lemma UnescapePair(high: nat, low: nat, s: string)
    requires 0xD800 <= high < 0xDC00 <= low < 0xE000
    ensures Unescape("\\u" + Hex4(high) + "\\u" + Hex4(low) + s)
            == Some(((0x1_0000 + (high - 0xD800) * 1024 + (low - 0xDC00)) as char, s))
  {
    var text := "\\u" + Hex4(high) + "\\u" + Hex4(low) + s;
    PairParts(Hex4(high), Hex4(low), s);
    UnHex4Hex4(high, "\\u" + Hex4(low) + s);
    UnHex4Hex4(low, s);
  }

  /** Where the two halves of an escaped pair lie. */
  lemma PairParts(a: string, b: string, s: string)
    requires |a| == 4 && |b| == 4
    ensures var text := "\\u" + a + "\\u" + b + s;
            && text[0] == '\\' && text[1] == 'u' && text[2..] == a + ("\\u" + b + s)
            && text[6] == '\\' && text[7] == 'u' && text[8..] == b + s && text[12..] == s
  {
  }

  lemma UnescapeEscape(c: char, s: string)
    ensures Unescape(Escape(c) + s) == Some((c, s))
  {
    if Plain(c) {
      assert (Escape(c) + s)[1..] == s;
    } else if HasShortEscape(c) {
      UnescapeShort(c, s);
    } else if c as int < 0x1_0000 {
      assert Escape(c) == "\\u" + Hex4(c as int);
      UnescapeBasic(c as int, s);
    } else {
      UnescapeAstral(c, s);
    }
  }

  lemma AstralEscape(c: char, v: int)
    requires 0x1_0000 <= c as int && v == c as int - 0x1_0000 && 0 <= v / 1024 < 1024 && 0 <= v % 1024 < 1024
    ensures Escape(c) == "\\u" + Hex4(0xD800 + v / 1024) + "\\u" + Hex4(0xDC00 + v % 1024)
  {
  }

  lemma AstralParts(c: char) returns (high: nat, low: nat)
    requires 0x1_0000 <= c as int
    ensures 0xD800 <= high < 0xDC00 <= low < 0xE000
    ensures c as int == 0x1_0000 + (high - 0xD800) * 1024 + (low - 0xDC00)
    ensures Escape(c) == "\\u" + Hex4(high) + "\\u" + Hex4(low)
  {
    var v := c as int - 0x1_0000;
    HighAndLow(v);
    AstralEscape(c, v);
    high, low := 0xD800 + v / 1024, 0xDC00 + v % 1024;
  }

  lemma HighAndLow(v: int)
    requires 0 <= v < 0x10_0000
    ensures 0 <= v / 1024 < 1024 && 0 <= v % 1024 < 1024 && v == v / 1024 * 1024 + v % 1024
  {
  }

  lemma UnescapeAstral(c: char, s: string)
    requires 0x1_0000 <= c as int
    ensures Unescape(Escape(c) + s) == Some((c, s))
  {
    var high, low := AstralParts(c);
    UnescapePair(high, low, s);
  }

  function EscapeAll(s: string): (r: string)
    ensures '\n' !in r
  {
    if s == "" then "" else Escape(s[0]) + EscapeAll(s[1..])
  }

  /** Read characters up to the closing quote. */
  function ReadString(s: string): (r: Option<(string, string)>)
    ensures r.Some? ==> |r.value.1| < |s|
  {
    if s == "" then None
    else if s[0] == '"' then Some(("", s[1..]))
    else
      var one := Unescape(s);
      if one.None? then None
      else
        var rest := ReadString(one.value.1);
        if rest.None? then None else Some(([one.value.0] + rest.value.0, rest.value.1))
  }

  lemma {:induction false} ReadStringOf(text: string, s: string)
    ensures ReadString(EscapeAll(text) + "\"" + s) == Some((text, s))
  {
    if text == "" {
      assert (EscapeAll(text) + "\"" + s)[1..] == s;
    } else {
      var tail := EscapeAll(text[1..]) + "\"" + s;
      assert EscapeAll(text) + "\"" + s == Escape(text[0]) + tail;
      UnescapeEscape(text[0], tail);
      EscapeStart(text[0]);
      ReadStringOf(text[1..], s);
      ReadStep(Escape(text[0]) + tail, text[0], tail);
      assert [text[0]] + text[1..] == text;
    }
  }

  lemma EscapeStart(c: char)
    ensures Escape(c) != "" && Escape(c)[0] != '"'
  {
  }

  lemma ReadStep(s: string, c: char, tail: string)
    requires s != "" && s[0] != '"' && Unescape(s) == Some((c, tail)) && ReadString(tail).Some?
    ensures ReadString(s) == Some(([c] + ReadString(tail).value.0, ReadString(tail).value.1))
  {
  }

  // ---------------------------------------------------------------------------- lexical

  /** How strings and integers are written and read. */
  datatype Lexer = Lexer(
    quote: string -> string, unquote: string -> Option<(string, string)>,
    number: int -> string, unnumber: string -> Option<(int, string)>)

  /** A quoted text, whatever follows it, is read back from behind its first quote. */
  ghost predicate QuoteLaw(lex: Lexer, t: string, s: string)
  {
    var text := lex.quote(t) + s;
    && lex.quote(t) != "" && '\n' !in lex.quote(t) && text[0] == '"'
    && lex.unquote(text[1..]) == Some((t, s))
  }

  ghost predicate NumberLaw(lex: Lexer, n: int, s: string)
  {
    var text := lex.number(n) + s;
    && lex.number(n) != "" && '\n' !in lex.number(n) && (text[0] == '-' || IsDigit(text[0]))
    && lex.unnumber(text) == Some((n, s))
  }

  ghost predicate LawfulLexer(lex: Lexer)
  {
    && (forall t, s :: QuoteLaw(lex, t, s))
    && (forall n, s | NoDigit(s) :: NumberLaw(lex, n, s))
  }

  function Quote(s: string): string { "\"" + EscapeAll(s) + "\"" }

  function WriteInt(n: int): string { if n < 0 then "-" + Decimal(-n) else Decimal(n) }

  function ReadNat(s: string): (r: Option<(nat, string)>)
  {
    var digits := DigitRun(s);
    if digits == "" then None else Some((Value(digits), s[|digits|..]))
  }

  function ReadInt(s: string): (r: Option<(int, string)>)
  {
    if s != "" && s[0] == '-' then
      var n := ReadNat(s[1..]);
      if n.None? then None else Some((0 - n.value.0, n.value.1))
    else
      var n := ReadNat(s);
      if n.None? then None else Some((n.value.0, n.value.1))
  }

  /** Python's `json` with ensure_ascii. */
  function Ascii(): Lexer { Lexer(Quote, ReadString, WriteInt, ReadInt) }

  lemma ReadNatDecimal(n: nat, s: string)
    requires NoDigit(s)
    ensures ReadNat(Decimal(n) + s) == Some((n, s))
  {
    DigitRunOf(Decimal(n), s);
    ValueOfDecimal(n);
  }

  lemma ReadIntOf(n: int, s: string)
    requires NoDigit(s)
    ensures ReadInt(WriteInt(n) + s) == Some((n, s))
    ensures WriteInt(n) != "" && '\n' !in WriteInt(n) && (WriteInt(n)[0] == '-' || IsDigit(WriteInt(n)[0]))
  {
    var size: nat := if n < 0 then -n else n;
    ReadNatDecimal(size, s);
    SignedText(Decimal(size), size, s);
  }

  lemma SignedText(digits: string, n: nat, s: string)
    requires digits != "" && (forall c | c in digits :: IsDigit(c)) && ReadNat(digits + s) == Some((n, s))
    ensures ReadInt(digits + s) == Some((n, s)) && ReadInt("-" + digits + s) == Some((0 - n, s))
    ensures IsDigit(digits[0]) && '\n' !in digits && '\n' !in "-" + digits
  {
    assert digits[0] in digits;
    assert ("-" + digits + s)[1..] == digits + s;
  }

  lemma ReadQuoted(t: string, s: string)
    ensures (Quote(t) + s)[0] == '"' && '\n' !in Quote(t)
    ensures ReadString((Quote(t) + s)[1..]) == Some((t, s))
  {
    ReadStringOf(t, s);
    QuotedTail(EscapeAll(t), s);
  }

  lemma QuotedTail(body: string, s: string)
    ensures ("\"" + body + "\"" + s)[1..] == body + "\"" + s
  {
  }

  lemma AsciiIsLawful()
    ensures LawfulLexer(Ascii())
  {
    var lex := Ascii();
    forall t, s ensures QuoteLaw(lex, t, s) {
      ReadQuoted(t, s);
    }
    forall n, s | NoDigit(s) ensures NumberLaw(lex, n, s) {
      ReadIntOf(n, s);
    }
  }

  // ------------------------------------------------------------------------ key order

  predicate KeyLess(a: string, b: string) { a != b && StringLeq(a, b) }

  /** The keys of every object strictly increase, so none is repeated. */
  predicate Ordered(v: Json)
    decreases v
  {
    match v
    case JArr(items) => forall i | 0 <= i < |items| :: Ordered(items[i])
    case JObj(fields) =>
      && (forall i | 0 <= i < |fields| - 1 :: KeyLess(fields[i].key, fields[i + 1].key))
      && (forall i | 0 <= i < |fields| :: Ordered(fields[i].value))
    case _ => true
  }

  lemma FirstLess(a: string, b: string)
    requires a != "" && b != "" && a[0] < b[0]
    ensures KeyLess(a, b)
  {
  }

  /** Two keys are ordered by the first character in which they differ. */
  lemma {:induction false} LessAt(a: string, b: string, k: nat)
    requires k <= |a| && k < |b| && a[..k] == b[..k] && (k == |a| || a[k] < b[k])
    ensures KeyLess(a, b)
  {
    if k == 0 {
      assert a == "" || a[0] != b[0];
    } else {
      assert a[0] == a[..k][0] == b[..k][0] == b[0];
      assert a[1..][..k - 1] == a[..k][1..] == b[..k][1..] == b[1..][..k - 1];
      LessAt(a[1..], b[1..], k - 1);
    }
  }

  // -------------------------------------------------------------------------- encoding

  function EncodeWith(lex: Lexer, v: Json): string
    decreases v
  {
    match v
    case JNull => "null"
    case JBool(b) => if b then "true" else "false"
    case JInt(n) => lex.number(n)
    case JStr(s) => lex.quote(s)
    case JArr(items) => "[" + EncodeItems(lex, items) + "]"
    case JObj(fields) => "{" + EncodeFields(lex, fields) + "}"
  }

  function EncodeItems(lex: Lexer, items: seq<Json>): string
    decreases items
  {
    if items == [] then ""
    else EncodeWith(lex, items[0]) + (if |items| == 1 then "" else "," + EncodeItems(lex, items[1..]))
  }

  function EncodeFields(lex: Lexer, fields: seq<Field>): string
    decreases fields
  {
    if fields == [] then ""
    else
      lex.quote(fields[0].key) + ":" + EncodeWith(lex, fields[0].value)
      + (if |fields| == 1 then "" else "," + EncodeFields(lex, fields[1..]))
  }

  function Encode(v: Json): string { EncodeWith(Ascii(), v) }

  /** `_canonical_json`. */
  function Canonical(v: Json): string { Encode(v) + "\n" }

  // --------------------------------------------------------------------------- parsing

  /** A reader must consume something. */
  function Shorter<T>(s: string, r: Option<(T, string)>): (g: Option<(T, string)>)
    ensures g.Some? ==> |g.value.1| < |s|
  {
    if r.Some? && |r.value.1| < |s| then r else None
  }

  function ParseWith(lex: Lexer, s: string): (r: Option<(Json, string)>)
    ensures r.Some? ==> |r.value.1| < |s|
    decreases |s|, 1
  {
    if s == "" then None
    else if s[0] == 'n' then ParseWord(s, "null", JNull)
    else if s[0] == 't' then ParseWord(s, "true", JBool(true))
    else if s[0] == 'f' then ParseWord(s, "false", JBool(false))
    else if s[0] == '"' then
      var text := Shorter(s, lex.unquote(s[1..]));
      if text.None? then None else Some((JStr(text.value.0), text.value.1))
    else if s[0] == '[' then
      if |s| > 1 && s[1] == ']' then Some((JArr([]), s[2..]))
      else
        var items := ParseItems(lex, s[1..]);
        if items.None? then None else Some((JArr(items.value.0), items.value.1))
    else if s[0] == '{' then
      if |s| > 1 && s[1] == '}' then Some((JObj([]), s[2..]))
      else
        var fields := ParseFields(lex, s[1..]);
        if fields.None? then None else Some((JObj(fields.value.0), fields.value.1))
    else
      var n := Shorter(s, lex.unnumber(s));
      if n.None? then None else Some((JInt(n.value.0), n.value.1))
  }

  function ParseWord(s: string, word: string, v: Json): (r: Option<(Json, string)>)
    requires word != ""
    ensures r.Some? ==> |r.value.1| < |s|
  {
    if word <= s then Some((v, s[|word|..])) else None
  }

  function ParseItems(lex: Lexer, s: string): (r: Option<(seq<Json>, string)>)
    ensures r.Some? ==> |r.value.1| < |s|
    decreases |s|, 2
  {
    var head := ParseWith(lex, s);
    if head.None? || head.value.1 == "" then None
    else if head.value.1[0] == ']' then Some(([head.value.0], head.value.1[1..]))
    else if head.value.1[0] != ',' then None
    else
      var tail := ParseItems(lex, head.value.1[1..]);
      if tail.None? then None else Some(([head.value.0] + tail.value.0, tail.value.1))
  }

  function ParseFields(lex: Lexer, s: string): (r: Option<(seq<Field>, string)>)
    ensures r.Some? ==> |r.value.1| < |s|
    decreases |s|, 2
  {
    if s == "" || s[0] != '"' then None
    else
      var key := Shorter(s, lex.unquote(s[1..]));
      if key.None? || key.value.1 == "" || key.value.1[0] != ':' then None
      else
        var head := ParseWith(lex, key.value.1[1..]);
        if head.None? || head.value.1 == "" then None
        else if head.value.1[0] == '}' then Some(([Field(key.value.0, head.value.0)], head.value.1[1..]))
        else if head.value.1[0] != ',' then None
        else
          var tail := ParseFields(lex, head.value.1[1..]);
          if tail.None? then None else Some(([Field(key.value.0, head.value.0)] + tail.value.0, tail.value.1))
  }

  function Parse(s: string): Option<(Json, string)> { ParseWith(Ascii(), s) }

  /** `_strict_json_bytes` and `_read_private_service_document`: parse, refuse repeated keys,
      re-encode with sorted keys, require the same bytes, require an object. */
  function Decode(data: string): (r: Option<Json>)
    ensures r.Some? ==> r.value.JObj? && Ordered(r.value) && Canonical(r.value) == data
  {
    var parsed := Parse(data);
    if parsed.Some? && parsed.value.0.JObj? && Ordered(parsed.value.0) && Canonical(parsed.value.0) == data
    then Some(parsed.value.0)
    else None
  }

  // ------------------------------------------------------------------------ round trip

  lemma {:induction false} ParseEncodeWith(lex: Lexer, v: Json, s: string)
    requires LawfulLexer(lex) && NoDigit(s)
    ensures ParseWith(lex, EncodeWith(lex, v) + s) == Some((v, s))
    decreases v
  {
    match v {
      case JNull => ParseWordText(lex, "null", v, s);
      case JBool(b) => ParseWordText(lex, if b then "true" else "false", v, s);
      case JInt(n) =>
        assert NumberLaw(lex, n, s);
      case JStr(t) =>
        assert QuoteLaw(lex, t, s);
      case JArr(items) =>
        if items == [] {
          ParseEmpty(lex, v, s);
        } else {
          ParseItemsEncode(lex, items, s);
          ItemsStart(lex, items);
          Enclosed("[", EncodeItems(lex, items), "]", s);
          ParseOpenBracket(lex, EncodeWith(lex, v) + s, items, s);
        }
      case JObj(fields) =>
        if fields == [] {
          ParseEmpty(lex, v, s);
        } else {
          ParseFieldsEncode(lex, fields, s);
          FieldsStart(lex, fields);
          Enclosed("{", EncodeFields(lex, fields), "}", s);
          ParseOpenBrace(lex, EncodeWith(lex, v) + s, fields, s);
        }
    }
  }

  lemma ParseWordText(lex: Lexer, word: string, v: Json, s: string)
    requires || (word == "null" && v == JNull)
             || (word == "true" && v == JBool(true))
             || (word == "false" && v == JBool(false))
    ensures ParseWith(lex, word + s) == Some((v, s))
  {
    assert (word + s)[|word|..] == s && word <= word + s;
    assert (word + s)[0] == word[0];
  }

  lemma ParseEmpty(lex: Lexer, v: Json, s: string)
    requires v == JArr([]) || v == JObj([])
    ensures ParseWith(lex, EncodeWith(lex, v) + s) == Some((v, s))
  {
    var text := EncodeWith(lex, v) + s;
    assert EncodeWith(lex, v) == if v.JArr? then "[]" else "{}";
    assert text[2..] == s;
  }

  /** A body between two brackets. */
  lemma Enclosed(left: string, body: string, right: string, s: string)
    requires |left| == 1 && |right| == 1 && body != ""
    ensures var text := left + body + right + s;
            && |text| > 1 && text[0] == left[0] && text[1] == body[0]
            && text[1..] == body + right + s
  {
  }

  lemma ParseOpenBrace(lex: Lexer, text: string, fields: seq<Field>, s: string)
    requires |text| > 1 && text[0] == '{' && text[1] != '}' && ParseFields(lex, text[1..]) == Some((fields, s))
    ensures ParseWith(lex, text) == Some((JObj(fields), s))
  {
  }

  lemma ParseOpenBracket(lex: Lexer, text: string, items: seq<Json>, s: string)
    requires |text| > 1 && text[0] == '[' && text[1] != ']' && ParseItems(lex, text[1..]) == Some((items, s))
    ensures ParseWith(lex, text) == Some((JArr(items), s))
  {
  }

  lemma FieldsStart(lex: Lexer, fields: seq<Field>)
    requires LawfulLexer(lex) && fields != []
    ensures EncodeFields(lex, fields) != "" && EncodeFields(lex, fields)[0] == '"'
  {
    assert QuoteLaw(lex, fields[0].key, "");
  }

  lemma ItemsStart(lex: Lexer, items: seq<Json>)
    requires LawfulLexer(lex) && items != []
    ensures EncodeItems(lex, items) != "" && EncodeItems(lex, items)[0] != ']'
  {
    EncodeStart(lex, items[0]);
  }

  lemma EncodeStart(lex: Lexer, v: Json)
    requires LawfulLexer(lex)
    ensures EncodeWith(lex, v) != "" && EncodeWith(lex, v)[0] != ']'
  {
    match v {
      case JInt(n) => assert NumberLaw(lex, n, "");
      case JStr(t) => assert QuoteLaw(lex, t, "");
      case _ =>
    }
  }

  /** One parsed item and what follows it. */
  lemma ParseLastItem(lex: Lexer, text: string, v: Json, s: string)
    requires ParseWith(lex, text) == Some((v, "]" + s))
    ensures ParseItems(lex, text) == Some(([v], s))
  {
    assert ("]" + s)[1..] == s;
  }

  lemma ParseMoreItems(lex: Lexer, text: string, v: Json, tail: string, items: seq<Json>, s: string)
    requires ParseWith(lex, text) == Some((v, "," + tail)) && ParseItems(lex, tail) == Some((items, s))
    ensures ParseItems(lex, text) == Some(([v] + items, s))
  {
    assert ("," + tail)[1..] == tail;
  }

  lemma {:induction false} ParseItemsEncode(lex: Lexer, items: seq<Json>, s: string)
    requires LawfulLexer(lex) && items != []
    ensures ParseItems(lex, EncodeItems(lex, items) + "]" + s) == Some((items, s))
    decreases items
  {
    var text, head := EncodeItems(lex, items) + "]" + s, EncodeWith(lex, items[0]);
    if |items| == 1 {
      assert text == head + ("]" + s);
      ParseEncodeWith(lex, items[0], "]" + s);
      ParseLastItem(lex, text, items[0], s);
      assert items == [items[0]];
    } else {
      var tail := EncodeItems(lex, items[1..]) + "]" + s;
      assert text == head + ("," + tail);
      ParseEncodeWith(lex, items[0], "," + tail);
      ParseItemsEncode(lex, items[1..], s);
      ParseMoreItems(lex, text, items[0], tail, items[1..], s);
      assert [items[0]] + items[1..] == items;
    }
  }

  /** One parsed field and what follows it. */
  lemma ParseLastField(lex: Lexer, text: string, key: string, rest: string, value: Json, s: string)
    requires text != "" && text[0] == '"' && Shorter(text, lex.unquote(text[1..])) == Some((key, rest))
    requires rest != "" && rest[0] == ':' && ParseWith(lex, rest[1..]) == Some((value, "}" + s))
    ensures ParseFields(lex, text) == Some(([Field(key, value)], s))
  {
    assert ("}" + s)[1..] == s;
  }

  lemma ParseMoreFields(lex: Lexer, text: string, key: string, rest: string, value: Json, tail: string,
                        fields: seq<Field>, s: string)
    requires text != "" && text[0] == '"' && Shorter(text, lex.unquote(text[1..])) == Some((key, rest))
    requires rest != "" && rest[0] == ':' && ParseWith(lex, rest[1..]) == Some((value, "," + tail))
    requires ParseFields(lex, tail) == Some((fields, s))
    ensures ParseFields(lex, text) == Some(([Field(key, value)] + fields, s))
  {
    assert ("," + tail)[1..] == tail;
  }

  /** The key in front of its value. */
  lemma ReadKey(lex: Lexer, key: string, encoded: string, after: string)
    requires LawfulLexer(lex)
    ensures var rest := ":" + encoded + after;
            var text := lex.quote(key) + rest;
            && text != "" && text[0] == '"' && Shorter(text, lex.unquote(text[1..])) == Some((key, rest))
            && rest[0] == ':' && rest[1..] == encoded + after
  {
    var rest := ":" + encoded + after;
    assert QuoteLaw(lex, key, rest);
  }

  /** The text of a field list, first field first. */
  lemma FieldsText(lex: Lexer, fields: seq<Field>, s: string)
    requires fields != []
    ensures EncodeFields(lex, fields) + "}" + s ==
            lex.quote(fields[0].key) + (":" + EncodeWith(lex, fields[0].value) +
            (if |fields| == 1 then "}" + s else "," + (EncodeFields(lex, fields[1..]) + "}" + s)))
  {
    var tail := if |fields| == 1 then "" else "," + EncodeFields(lex, fields[1..]);
    Regroup(lex.quote(fields[0].key), EncodeWith(lex, fields[0].value), tail, s);
    if |fields| > 1 {
      Regroup2(EncodeFields(lex, fields[1..]), s);
    }
  }

  lemma Regroup(key: string, value: string, tail: string, s: string)
    ensures key + ":" + value + tail + "}" + s == key + (":" + value + (tail + "}" + s))
  {
  }

  lemma Regroup2(body: string, s: string)
    ensures "," + body + "}" + s == "," + (body + "}" + s)
  {
  }

  lemma {:induction false} ParseFieldsEncode(lex: Lexer, fields: seq<Field>, s: string)
    requires LawfulLexer(lex) && fields != []
    ensures ParseFields(lex, EncodeFields(lex, fields) + "}" + s) == Some((fields, s))
    decreases fields, 1
  {
    if |fields| == 1 {
      ParseOneField(lex, fields, s);
    } else {
      ParseEncodeWith(lex, fields[0].value, "," + (EncodeFields(lex, fields[1..]) + "}" + s));
      ParseFieldsEncode(lex, fields[1..], s);
      FieldsReadOn(lex, fields, s);
    }
  }

  lemma FieldsReadOn(lex: Lexer, fields: seq<Field>, s: string)
    requires LawfulLexer(lex) && |fields| > 1
    requires var tail := EncodeFields(lex, fields[1..]) + "}" + s;
             && ParseWith(lex, EncodeWith(lex, fields[0].value) + ("," + tail)) == Some((fields[0].value, "," + tail))
             && ParseFields(lex, tail) == Some((fields[1..], s))
    ensures ParseFields(lex, EncodeFields(lex, fields) + "}" + s) == Some((fields, s))
  {
    var key, value, encoded := fields[0].key, fields[0].value, EncodeWith(lex, fields[0].value);
    var tail := EncodeFields(lex, fields[1..]) + "}" + s;
    FieldsText(lex, fields, s);
    ReadKey(lex, key, encoded, "," + tail);
    ParseMoreFields(lex, EncodeFields(lex, fields) + "}" + s, key, ":" + encoded + ("," + tail), value, tail,
                    fields[1..], s);
    assert [Field(key, value)] + fields[1..] == fields;
  }

  lemma {:induction false} ParseOneField(lex: Lexer, fields: seq<Field>, s: string)
    requires LawfulLexer(lex) && |fields| == 1
    ensures ParseFields(lex, EncodeFields(lex, fields) + "}" + s) == Some((fields, s))
    decreases fields, 0
  {
    var key, value, encoded := fields[0].key, fields[0].value, EncodeWith(lex, fields[0].value);
    FieldsText(lex, fields, s);
    ReadKey(lex, key, encoded, "}" + s);
    ParseEncodeWith(lex, value, "}" + s);
    ParseLastField(lex, EncodeFields(lex, fields) + "}" + s, key, ":" + encoded + ("}" + s), value, s);
    assert fields == [Field(key, value)];
  }

  /** Whatever follows a document, the document is read back and the rest is left. */
  lemma ParseEncode(v: Json, s: string)
    requires NoDigit(s)
    ensures Parse(Encode(v) + s) == Some((v, s))
  {
    AsciiIsLawful();
    ParseEncodeWith(Ascii(), v, s);
  }

  /** Reading back what was written returns the document. */
  lemma RoundTrip(v: Json)
    requires v.JObj? && Ordered(v)
    ensures Decode(Canonical(v)) == Some(v)
  {
    ParseEncode(v, "\n");
  }

  /** Two documents with the same bytes are the same document. */
  lemma CanonicalInjective(a: Json, b: Json)
    requires Canonical(a) == Canonical(b)
    ensures a == b
  {
    ParseEncode(a, "\n");
    ParseEncode(b, "\n");
  }

  // ---------------------------------------------------------------------- torn documents

  lemma {:induction false} NoNewlineInside(lex: Lexer, v: Json)
    requires LawfulLexer(lex)
    ensures '\n' !in EncodeWith(lex, v)
    decreases v
  {
    match v {
      case JInt(n) => assert NumberLaw(lex, n, "");
      case JStr(t) => assert QuoteLaw(lex, t, "");
      case JArr(items) => NoNewlineInItems(lex, items);
      case JObj(fields) => NoNewlineInFields(lex, fields);
      case _ =>
    }
  }

  lemma {:induction false} NoNewlineInItems(lex: Lexer, items: seq<Json>)
    requires LawfulLexer(lex)
    ensures '\n' !in EncodeItems(lex, items)
    decreases items
  {
    if items != [] {
      NoNewlineInside(lex, items[0]);
      NoNewlineInItems(lex, items[1..]);
    }
  }

  lemma {:induction false} NoNewlineInFields(lex: Lexer, fields: seq<Field>)
    requires LawfulLexer(lex)
    ensures '\n' !in EncodeFields(lex, fields)
    decreases fields
  {
    if fields != [] {
      assert fields[0] in fields;
      assert QuoteLaw(lex, fields[0].key, "");
      NoNewlineInside(lex, fields[0].value);
      NoNewlineInFields(lex, fields[1..]);
    }
  }

  /** No proper prefix of a document is accepted as a document. */
  lemma TornIsRefused(v: Json, k: nat)
    requires k < |Canonical(v)|
    ensures Decode(Canonical(v)[..k]) == None
  {
    AsciiIsLawful();
    NoNewlineInside(Ascii(), v);
    var torn := Canonical(v)[..k];
    NewlineOnlyAtEnd(Encode(v), k);
    if Decode(torn).Some? {
      NewlineAtEnd(Encode(Decode(torn).value));
    }
  }

  lemma NewlineOnlyAtEnd(text: string, k: nat)
    requires '\n' !in text && k <= |text|
    ensures '\n' !in (text + "\n")[..k]
  {
    assert (text + "\n")[..k] == text[..k];
  }

  lemma NewlineAtEnd(text: string)
    ensures '\n' in text + "\n"
  {
    assert (text + "\n")[|text|] == '\n';
  }

  // ---------------------------------------------------------------------------- digest

  /** All that is assumed of SHA-256, wherever a digest function is a parameter. */
  ghost predicate Injective(sha: string -> string)
  {
    forall a, b | sha(a) == sha(b) :: a == b
  }

  /** Equal digests of canonical documents mean equal documents. */
  lemma DigestInjective(sha: string -> string, a: Json, b: Json)
    requires Injective(sha) && sha(Canonical(a)) == sha(Canonical(b))
    ensures a == b
  {
    CanonicalInjective(a, b);
  }
}
