/**
 The printer for Rego literals (internal/policy/compiler/expression.go:286-313,
 internal/policy/compiler/templates.go:31-42) and a parser that undoes it.
 */
module LiteralPrinter {
  import opened Text
  import opened Json
  import R = RegoTests

  /** `strconv.IsPrint`, left abstract. */
  type Printing = char -> bool

  // ---------------------------------------------------------------- hexadecimal and decimal digits

  function HexDigit(d: nat): char
    requires d < 16
  {
    if d < 10 then '0' + d as char else 'a' + (d - 10) as char
  }

  function DigitValue(c: char): Option<nat> {
    if '0' <= c <= '9' then Some((c - '0') as nat)
    else if 'a' <= c <= 'f' then Some((c - 'a') as nat + 10)
    else None
  }

  function Pow16(width: nat): nat {
    if width == 0 then 1 else 16 * Pow16(width - 1)
  }

  function Hex(n: nat, width: nat): (s: string)
    ensures |s| == width
  {
    if width == 0 then "" else Hex(n / 16, width - 1) + [HexDigit(n % 16)]
  }

  function HexValue(s: string): Option<nat> {
    if s == "" then Some(0)
    else
      var high, low := HexValue(s[..|s| - 1]), DigitValue(s[|s| - 1]);
      if high.None? || low.None? then None else Some(high.value * 16 + low.value)
  }

  lemma {:induction false} HexRoundTrip(n: nat, width: nat)
    requires n < Pow16(width)
    ensures HexValue(Hex(n, width)) == Some(n)
  {
    if width > 0 {
      var s := Hex(n, width);
      HexRoundTrip(n / 16, width - 1);
      assert s[..|s| - 1] == Hex(n / 16, width - 1);
    }
  }

  function PrintNat(n: nat): (s: string)
    ensures s != "" && forall i :: 0 <= i < |s| ==> IsDigit(s[i])
  {
    if n < 10 then [HexDigit(n)] else PrintNat(n / 10) + [HexDigit(n % 10)]
  }

  /** Reads decimal digits as long as there are any. */
  function ParseDigits(s: string, sofar: nat): (nat, string) {
    if s != "" && IsDigit(s[0]) then ParseDigits(s[1..], 10 * sofar + (s[0] - '0') as nat) else (sofar, s)
  }

  predicate EndsNumber(rest: string) {
    rest == "" || (!IsDigit(rest[0]) && rest[0] != '.')
  }

  function Pow10(width: nat): nat {
    if width == 0 then 1 else 10 * Pow10(width - 1)
  }

  /** Decimal digits with leading zeros. */
  function Padded(n: nat, width: nat): (s: string)
    ensures |s| == width && forall i :: 0 <= i < |s| ==> IsDigit(s[i])
  {
    if width == 0 then "" else Padded(n / 10, width - 1) + [HexDigit(n % 10)]
  }

  function PaddedValue(s: string): nat
    requires forall i :: 0 <= i < |s| ==> IsDigit(s[i])
  {
    if s == "" then 0
    else
      assert IsDigit(s[|s| - 1]);
      PaddedValue(s[..|s| - 1]) * 10 + (s[|s| - 1] - '0') as nat
  }

  lemma {:induction false} PaddedRoundTrip(n: nat, width: nat)
    requires n < Pow10(width)
    ensures PaddedValue(Padded(n, width)) == n
  {
    if width > 0 {
      var s := Padded(n, width);
      PaddedRoundTrip(n / 10, width - 1);
      assert s[..|s| - 1] == Padded(n / 10, width - 1);
    }
  }

  lemma {:induction false} DigitsRoundTrip(n: nat, rest: string)
    ensures ParseDigits(PrintNat(n) + rest, 0) == ParseDigits(rest, n)
  {
    if n < 10 {
      assert (PrintNat(n) + rest)[1..] == rest;
    } else {
      var last := [HexDigit(n % 10)] + rest;
      assert PrintNat(n) + rest == PrintNat(n / 10) + last;
      DigitsRoundTrip(n / 10, last);
      assert last[1..] == rest;
    }
  }

  // ---------------------------------------------------------------- quoted strings (%q)

  function Escape(c: char, printing: Printing): string {
    if c == '"' then "\\\""
    else if c == '\\' then "\\\\"
    else if c == '\U{7}' then "\\a"
    else if c == '\U{8}' then "\\b"
    else if c == '\U{c}' then "\\f"
    else if c == '\n' then "\\n"
    else if c == '\r' then "\\r"
    else if c == '\t' then "\\t"
    else if c == '\U{b}' then "\\v"
    else if c < ' ' || c == '\U{7f}' then "\\x" + Hex(c as nat, 2)
    else if printing(c) then [c]
    else if c < '\U{10000}' then "\\u" + Hex(c as nat, 4)
    else "\\U" + Hex(c as nat, 8)
  }

  function Escaped(s: string, printing: Printing): string {
    if s == "" then "" else Escape(s[0], printing) + Escaped(s[1..], printing)
  }

  function Quote(s: string, printing: Printing): string {
    "\"" + Escaped(s, printing) + "\""
  }

  function ParseHexChar(s: string, width: nat): Option<(char, string)> {
    if |s| < width then None
    else
      var n := HexValue(s[..width]);
      if n.None? || !(n.value < 0xD800 || 0xE000 <= n.value < 0x110000) then None
      else Some((n.value as char, s[width..]))
  }

  /** One possibly escaped character. */
  function ParseChar(s: string): (r: Option<(char, string)>)
    ensures r.Some? ==> |r.value.1| < |s|
  {
    if s == "" then None
    else if s[0] != '\\' then Some((s[0], s[1..]))
    else if |s| == 1 then None
    else match s[1]
      case 'x' => ParseHexChar(s[2..], 2)
      case 'u' => ParseHexChar(s[2..], 4)
      case 'U' => ParseHexChar(s[2..], 8)
      case 'a' => Some(('\U{7}', s[2..]))
      case 'b' => Some(('\U{8}', s[2..]))
      case 'f' => Some(('\U{c}', s[2..]))
      case 'n' => Some(('\n', s[2..]))
      case 'r' => Some(('\r', s[2..]))
      case 't' => Some(('\t', s[2..]))
      case 'v' => Some(('\U{b}', s[2..]))
      case c => if c == '"' || c == '\\' then Some((c, s[2..])) else None
  }

  /** The characters up to the closing quote. */
  function ParseQuoted(s: string): (r: Option<(string, string)>)
    ensures r.Some? ==> |r.value.1| < |s|
    decreases |s|
  {
    if s == "" then None
    else if s[0] == '"' then Some(("", s[1..]))
    else
      var first := ParseChar(s);
      if first.None? then None
      else
        var more := ParseQuoted(first.value.1);
        if more.None? then None else Some(([first.value.0] + more.value.0, more.value.1))
  }

  lemma {:induction false} HexCharRoundTrip(c: char, width: nat, rest: string)
    requires c as nat < Pow16(width)
    ensures ParseHexChar(Hex(c as nat, width) + rest, width) == Some((c, rest))
  {
    var s := Hex(c as nat, width) + rest;
    HexRoundTrip(c as nat, width);
    assert s[..width] == Hex(c as nat, width) && s[width..] == rest;
  }

  lemma {:induction false} EscapeRoundTrip(c: char, printing: Printing, rest: string)
    ensures Escape(c, printing) != "" && Escape(c, printing)[0] != '"'
    ensures ParseChar(Escape(c, printing) + rest) == Some((c, rest))
  {
    var e := Escape(c, printing);
    var s := e + rest;
    if e == [c] {
      assert s[1..] == rest;
    } else if |e| == 2 {
      assert s[1] == e[1] && s[2..] == rest;
    } else {
      var hex := e[2..];
      assert s[1] == e[1] && s[2..] == hex + rest;
      assert Pow16(2) == 256 && Pow16(4) == 65536 && Pow16(8) == 0x1_0000_0000 by { Powers(); }
      HexCharRoundTrip(c, |hex|, rest);
    }
  }

  lemma Powers()
    ensures Pow16(2) == 256 && Pow16(4) == 65536 && Pow16(8) == 0x1_0000_0000
  {
    assert Pow16(3) == 4096;
    assert Pow16(5) == 1048576;
    assert Pow16(6) == 16777216;
    assert Pow16(7) == 268435456;
  }

  /** Every string is recovered from its quoted form, whatever follows. */
  lemma {:induction false} QuoteRoundTrip(t: string, printing: Printing, rest: string)
    ensures ParseQuoted(Escaped(t, printing) + "\"" + rest) == Some((t, rest))
  {
    var s := Escaped(t, printing) + "\"" + rest;
    if t == "" {
      assert s[1..] == rest;
    } else {
      var tail := Escaped(t[1..], printing) + "\"" + rest;
      assert s == Escape(t[0], printing) + tail;
      EscapeRoundTrip(t[0], printing, tail);
      assert s[0] == Escape(t[0], printing)[0];
      QuoteRoundTrip(t[1..], printing, rest);
      assert [t[0]] + t[1..] == t;
    }
  }

  // ---------------------------------------------------------------- values

  const MIN_INT64: int := -0x8000_0000_0000_0000
  const MAX_INT64: int := 0x7FFF_FFFF_FFFF_FFFF
  const MILLION: int := 1000000

  function PrintInt(n: int): string {
    if n < 0 then "-" + PrintNat(-n) else PrintNat(n)
  }

  /** `%f`: so many millionths, with six decimals. */
  function PrintFixed(negative: bool, millionths: int): string {
    var m := if millionths < 0 then -millionths else millionths;
    (if negative then "-" else "") + PrintNat(m / MILLION) + "." + Padded(m % MILLION, 6)
  }

  /** Whole numbers that fit an int64 are printed without decimals. */
  function PrintNumber(n: real): string {
    if R.IsWhole(n) && MIN_INT64 <= n.Floor <= MAX_INT64 then PrintInt(n.Floor)
    else PrintFixed(n < 0.0, R.Nearest(n * 1000000.0))
  }

  function PrintValue(v: Json, printing: Printing): string
    decreases v, 0
  {
    match v
    case Null => "null"
    case Bool(flag) => if flag then "true" else "false"
    case Number(n) => PrintNumber(n)
    case String(text) => Quote(text, printing)
    case Array(items) => "[" + PrintItems(items, true, printing) + "]"
    case Object(_) => "map[]"
  }

  function PrintItems(items: seq<Json>, first: bool, printing: Printing): string
    decreases items, 1
  {
    if items == [] then ""
    else (if first then "" else ", ") + PrintValue(items[0], printing) + PrintItems(items[1..], false, printing)
  }

  /** Six digits after a point. */
  predicate HasDecimals(s: string) {
    |s| >= 7 && s[0] == '.' && forall i :: 1 <= i < 7 ==> IsDigit(s[i])
  }

  function Signed(negative: bool, millionths: nat): Json {
    var m: int := millionths;
    Number((if negative then -m else m) as real / 1000000.0)
  }

  /** An unsigned number in millionths. */
  function ParseMagnitude(s: string): Option<(nat, string)> {
    if s == "" || !IsDigit(s[0]) then None
    else
      var n := ParseDigits(s, 0);
      if HasDecimals(n.1) then Some((n.0 * MILLION + PaddedValue(n.1[1..7]), n.1[7..])) else Some((n.0 * MILLION, n.1))
  }

  function ParseNumber(s: string): Option<(Json, string)> {
    var negative := s != "" && s[0] == '-';
    var m := ParseMagnitude(if negative then s[1..] else s);
    if m.None? then None else Some((Signed(negative, m.value.0), m.value.1))
  }

  function ParseValue(s: string): (r: Option<(Json, string)>)
    ensures r.Some? ==> |r.value.1| < |s|
    decreases |s|, 0
  {
    if s == "" then None
    else if s[0] == 'n' then if HasPrefix(s, "null") then Some((Null, s[4..])) else None
    else if s[0] == 't' then if HasPrefix(s, "true") then Some((Bool(true), s[4..])) else None
    else if s[0] == 'f' then if HasPrefix(s, "false") then Some((Bool(false), s[5..])) else None
    else if s[0] == '"' then
      var t := ParseQuoted(s[1..]);
      if t.None? then None else Some((String(t.value.0), t.value.1))
    else if s[0] == '[' then
      var items := ParseItems(s[1..], true);
      if items.None? then None else Some((Array(items.value.0), items.value.1))
    else
      var n := ParseNumber(s);
      if n.Some? && |n.value.1| < |s| then n else None
  }

  function ParseItems(s: string, first: bool): (r: Option<(seq<Json>, string)>)
    ensures r.Some? ==> |r.value.1| < |s|
    decreases |s|, 1
  {
    if s == "" then None
    else if s[0] == ']' then Some(([], s[1..]))
    else if !first && !HasPrefix(s, ", ") then None
    else
      var head := ParseValue(if first then s else s[2..]);
      if head.None? then None
      else
        var tail := ParseItems(head.value.1, false);
        if tail.None? then None else Some(([head.value.0] + tail.value.0, tail.value.1))
  }

  lemma {:induction false} DigitsShrink(s: string, sofar: nat)
    ensures |ParseDigits(s, sofar).1| <= |s|
  {
    if s != "" && IsDigit(s[0]) { DigitsShrink(s[1..], 10 * sofar + (s[0] - '0') as nat); }
  }

  /** A sign in front of a magnitude. */
  lemma {:induction false} SignRead(negative: bool, digits: string, m: nat, rest: string)
    requires digits != "" && IsDigit(digits[0]) && ParseMagnitude(digits) == Some((m, rest)) && |rest| < |digits|
    ensures var s := (if negative then "-" else "") + digits;
      ParseNumber(s) == Some((Signed(negative, m), rest)) && |rest| < |s| && (IsDigit(s[0]) || s[0] == '-')
  {
    var s := (if negative then "-" else "") + digits;
    assert (if negative then s[1..] else s) == digits;
  }

  lemma {:induction false} IntRoundTrip(n: int, rest: string)
    requires EndsNumber(rest)
    ensures var s := PrintInt(n) + rest;
      && ParseNumber(s) == Some((Number(n as real), rest)) && |rest| < |s|
      && (IsDigit(s[0]) || s[0] == '-')
  {
    var m := if n < 0 then -n else n;
    DigitsRoundTrip(m, rest);
    var digits := PrintNat(m) + rest;
    assert digits[0] == PrintNat(m)[0];
    SignRead(n < 0, digits, m * MILLION, rest);
    WholeMillionths(n);
    assert PrintInt(n) + rest == (if n < 0 then "-" else "") + digits;
  }

  lemma {:induction false} WholeMillionths(n: int)
    ensures n >= 0 ==> Signed(false, n * MILLION) == Number(n as real)
    ensures n < 0 ==> Signed(true, -n * MILLION) == Number(n as real)
  {
    assert (n * MILLION) as real == n as real * 1000000.0;
  }

  lemma {:induction false} DecimalsRead(n: nat, rest: string)
    requires n < MILLION
    ensures var tail := "." + Padded(n, 6) + rest;
      && HasDecimals(tail) && tail[7..] == rest && (forall i :: 0 <= i < 6 ==> IsDigit(tail[1..7][i]))
      && PaddedValue(tail[1..7]) == n
  {
    var decimals := Padded(n, 6);
    var tail := "." + decimals + rest;
    assert tail[1..7] == decimals;
    assert forall i :: 1 <= i < 7 ==> tail[i] == decimals[i - 1];
    assert Pow10(6) == MILLION by { assert Pow10(3) == 1000; }
    PaddedRoundTrip(n, 6);
  }

  lemma {:induction false} MagnitudeRead(a: nat, rest: string)
    ensures var digits := PrintNat(a / MILLION) + ("." + Padded(a % MILLION, 6) + rest);
      digits != "" && IsDigit(digits[0]) && ParseMagnitude(digits) == Some((a, rest)) && |rest| < |digits|
  {
    var whole, tail := PrintNat(a / MILLION), "." + Padded(a % MILLION, 6) + rest;
    assert (whole + tail)[0] == whole[0];
    DigitsRoundTrip(a / MILLION, tail);
    assert ParseDigits(tail, a / MILLION) == (a / MILLION, tail);
    DecimalsRead(a % MILLION, rest);
  }

  lemma {:induction false} FixedShape(sign: string, whole: string, decimals: string, rest: string)
    ensures sign + whole + "." + decimals + rest == sign + (whole + ("." + decimals + rest))
  {
  }

  lemma {:induction false} FixedRoundTrip(negative: bool, m: int, rest: string)
    requires if negative then m <= 0 else m >= 0
    ensures var s := PrintFixed(negative, m) + rest;
      && ParseNumber(s) == Some((Number(m as real / 1000000.0), rest)) && |rest| < |s|
      && (IsDigit(s[0]) || s[0] == '-')
  {
    var a: nat := if m < 0 then -m else m;
    var digits := PrintNat(a / MILLION) + ("." + Padded(a % MILLION, 6) + rest);
    MagnitudeRead(a, rest);
    SignRead(negative, digits, a, rest);
    FixedShape(if negative then "-" else "", PrintNat(a / MILLION), Padded(a % MILLION, 6), rest);
  }

  lemma {:induction false} NearestSign(r: real)
    ensures if r < 0.0 then R.Nearest(r) <= 0 else R.Nearest(r) >= 0
  {
  }

  /** A printed number denotes the number, rounded to six decimals. */
  lemma {:induction false} NumberDenotes(n: real, rest: string)
    requires EndsNumber(rest)
    ensures var s := PrintNumber(n) + rest;
      && ParseNumber(s) == Some((Number(R.EmitNumber(n)), rest)) && |rest| < |s|
      && (IsDigit(s[0]) || s[0] == '-')
  {
    if R.IsWhole(n) && MIN_INT64 <= n.Floor <= MAX_INT64 {
      IntRoundTrip(n.Floor, rest);
    } else {
      NearestSign(n * 1000000.0);
      FixedRoundTrip(n < 0.0, R.Nearest(n * 1000000.0), rest);
      if R.IsWhole(n) {
        R.WholeScaled(n.Floor);
        R.NearestWhole(n * 1000000.0);
      }
    }
  }

  lemma WordRoundTrip(rest: string)
    ensures ParseValue("null" + rest) == Some((Null, rest))
    ensures ParseValue("true" + rest) == Some((Bool(true), rest))
    ensures ParseValue("false" + rest) == Some((Bool(false), rest))
  {
    var n, t, f := "null" + rest, "true" + rest, "false" + rest;
    assert n[..4] == "null" && n[4..] == rest;
    assert t[..4] == "true" && t[4..] == rest;
    assert f[..5] == "false" && f[5..] == rest;
  }

  lemma {:induction false} ParseOpenQuote(s: string, text: string, rest: string)
    requires s != "" && s[0] == '"' && ParseQuoted(s[1..]) == Some((text, rest))
    ensures ParseValue(s) == Some((String(text), rest))
  {
  }

  lemma {:induction false} QuotedShape(inside: string, rest: string)
    ensures var s := "\"" + inside + "\"" + rest; s[0] == '"' && s[1..] == inside + "\"" + rest
  {
  }

  lemma {:induction false} ParseString(text: string, printing: Printing, rest: string)
    ensures ParseValue(Quote(text, printing) + rest) == Some((String(text), rest))
  {
    QuotedShape(Escaped(text, printing), rest);
    QuoteRoundTrip(text, printing, rest);
    ParseOpenQuote(Quote(text, printing) + rest, text, rest);
  }

  lemma ParseArray(items: seq<Json>, inside: string, rest: string)
    requires ParseItems(inside + "]" + rest, true) == Some((items, rest))
    ensures ParseValue("[" + inside + "]" + rest) == Some((Array(items), rest))
  {
    var s := "[" + inside + "]" + rest;
    assert s[0] == '[' && s[1..] == inside + "]" + rest;
  }

  lemma {:induction false} ParseDigitStart(s: string, v: Json, rest: string)
    requires s != "" && (IsDigit(s[0]) || s[0] == '-')
    requires ParseNumber(s) == Some((v, rest)) && |rest| < |s|
    ensures ParseValue(s) == Some((v, rest))
  {
  }

  /** What the text of every literal without maps denotes: the literal, with its numbers rounded to six
      decimals. */
  lemma {:induction false} PrintDenotes(v: Json, printing: Printing, rest: string)
    requires R.Printable(v) && EndsNumber(rest)
    ensures ParseValue(PrintValue(v, printing) + rest) == Some((R.EmitValue(v), rest))
    decreases v, 0
  {
    match v
    case Null => WordRoundTrip(rest);
    case Bool(_) => WordRoundTrip(rest);
    case Number(n) =>
      NumberDenotes(n, rest);
      ParseDigitStart(PrintNumber(n) + rest, R.EmitValue(v), rest);
    case String(text) => ParseString(text, printing, rest);
    case Array(items) =>
      ItemsRoundTrip(items, true, printing, rest);
      ParseArray(Emitted(items), PrintItems(items, true, printing), rest);
  }

  function Emitted(items: seq<Json>): seq<Json> {
    seq(|items|, i requires 0 <= i < |items| => R.EmitValue(items[i]))
  }

  /** The parser recovers every value whose numbers have at most six decimals. */
  lemma {:induction false} ValueRoundTrip(v: Json, printing: Printing, rest: string)
    requires R.ExactLiteral(v) && EndsNumber(rest)
    ensures ParseValue(PrintValue(v, printing) + rest) == Some((v, rest))
  {
    R.ExactIsPrintable(v);
    R.EmitValueExact(v);
    PrintDenotes(v, printing, rest);
  }

  lemma {:induction false} PrintStarts(v: Json, printing: Printing)
    requires R.Printable(v)
    ensures PrintValue(v, printing) != "" && PrintValue(v, printing)[0] != ']'
  {
    if v.Number? {
      NumberDenotes(v.number, "");
      assert PrintNumber(v.number) + "" == PrintNumber(v.number);
    }
  }

  lemma {:induction false} ItemsRoundTrip(items: seq<Json>, first: bool, printing: Printing, rest: string)
    requires forall i :: 0 <= i < |items| ==> R.Printable(items[i])
    ensures ParseItems(PrintItems(items, first, printing) + "]" + rest, first) == Some((Emitted(items), rest))
    decreases items, 1
  {
    var s := PrintItems(items, first, printing) + "]" + rest;
    if items == [] {
      assert s[1..] == rest;
    } else {
      var tail := PrintItems(items[1..], false, printing) + "]" + rest;
      var body := PrintValue(items[0], printing) + tail;
      assert s == (if first then "" else ", ") + body;
      ItemsRoundTrip(items[1..], false, printing, rest);
      assert tail[0] == ']' || tail[0] == ',';
      PrintDenotes(items[0], printing, tail);
      PrintStarts(items[0], printing);
      assert body[0] == PrintValue(items[0], printing)[0];
      if first {
        assert s == body;
      } else {
        assert s[..2] == ", " && s[2..] == body;
      }
      assert [R.EmitValue(items[0])] + Emitted(items[1..]) == Emitted(items);
    }
  }

  /** Hence distinct values never print alike. */
  lemma PrintInjective(v: Json, w: Json, printing: Printing)
    requires R.ExactLiteral(v) && R.ExactLiteral(w) && PrintValue(v, printing) == PrintValue(w, printing)
    ensures v == w
  {
    ValueRoundTrip(v, printing, "");
    ValueRoundTrip(w, printing, "");
  }

  // ---------------------------------------------------------------- quoteSlice

  function Strings(items: seq<string>): Json {
    Array(seq(|items|, i requires 0 <= i < |items| => String(items[i])))
  }

  lemma ItemsStep(before: string, text: string, items: seq<Json>, i: nat, printing: Printing)
    requires i < |items| && items[i] == String(text)
    ensures before + PrintItems(items[i..], i == 0, printing)
         == before + (if i > 0 then ", " else "") + Quote(text, printing) + PrintItems(items[i + 1..], false, printing)
  {
    var sep, quoted, tail := if i > 0 then ", " else "", Quote(text, printing), PrintItems(items[i + 1..], false, printing);
    assert items[i..][1..] == items[i + 1..];
    assert before + (sep + quoted + tail) == before + sep + quoted + tail;
  }

  method QuoteSlice(items: seq<string>, printing: Printing) returns (buf: string)
    ensures buf == PrintValue(Strings(items), printing)
    ensures ParseValue(buf) == Some((Strings(items), ""))
  {
    ghost var all := Strings(items).items;
    ghost var goal := "[" + PrintItems(all, true, printing);
    buf := "[";
    assert all[0..] == all;
    for i := 0 to |items|
      invariant buf + PrintItems(all[i..], i == 0, printing) == goal
    {
      ItemsStep(buf, items[i], all, i, printing);
      if i > 0 {
        buf := buf + ", ";
      } else {
        assert buf + "" == buf;
      }
      buf := buf + Quote(items[i], printing);
    }
    assert PrintItems(all[|items|..], |items| == 0, printing) == "";
    assert buf == goal;
    buf := buf + "]";
    ValueRoundTrip(Strings(items), printing, "");
    assert buf + "" == buf;
  }
}
