/** The JSON Canonicalization Scheme of RFC 8785 as `jcs.rs` implements it: the
    strict grammar, as functions from a text to a value and the text left over,
    and the canonical form. A `string` here is a Rust `str`: a sequence of
    Unicode scalar values. */
module Jcs {
  import opened Decimal

  const MAX_SAFE: int := 0x20_0000_0000_0000

  /** Integers that IEEE 754 binary64 holds without gaps. */
  type SafeInt = n: int | -MAX_SAFE <= n <= MAX_SAFE

  datatype Value =
    | Null
    | Bool(b: bool)
    | Str(text: string)
    | Num(n: SafeInt)
    | Arr(items: seq<Value>)
    | Obj(members: map<string, Value>)

  /** `NumberOutsideModel` stands for well-formed numbers this model gives no
      value to: fractions, exponents and integers beyond 2^53. */
  datatype Error = InvalidJson | DuplicateKey | LoneSurrogate | NumberOutsideModel

  datatype Parsed<+T> = Ok(value: T, rest: string) | Err(error: Error)

  // ----- UTF-16 order -----

  function Units(c: char): seq<nat> {
    var n := c as int;
    if n < 0x10000 then [n]
    else [0xD800 + (n - 0x10000) / 0x400, 0xDC00 + (n - 0x10000) % 0x400]
  }

  function Utf16(s: string): seq<nat> {
    if s == "" then [] else Units(s[0]) + Utf16(s[1..])
  }

  predicate LexLess(a: seq<nat>, b: seq<nat>) {
    b != [] && (a == [] || a[0] < b[0] || (a[0] == b[0] && LexLess(a[1..], b[1..])))
  }

  /** The order of member names in canonical form. */
  predicate NameLess(a: string, b: string) {
    LexLess(Utf16(a), Utf16(b))
  }

  predicate IsLeastName(least: string, names: set<string>) {
    least in names && forall other | other in names :: other == least || NameLess(least, other)
  }

  predicate StrictlySorted(names: seq<string>) {
    forall i, j :: 0 <= i < j < |names| ==> NameLess(names[i], names[j])
  }

  lemma {:induction false} LexTotal(a: seq<nat>, b: seq<nat>)
    ensures LexLess(a, b) || a == b || LexLess(b, a)
    ensures !(LexLess(a, b) && LexLess(b, a))
  {
    if a != [] && b != [] && a[0] == b[0] {
      LexTotal(a[1..], b[1..]);
      assert a == [a[0]] + a[1..] && b == [b[0]] + b[1..];
    }
  }

  lemma {:induction false} LexTransitive(a: seq<nat>, b: seq<nat>, c: seq<nat>)
    requires LexLess(a, b) && LexLess(b, c)
    ensures LexLess(a, c)
  {
    if a != [] && a[0] == b[0] == c[0] {
      LexTransitive(a[1..], b[1..], c[1..]);
    }
  }

  lemma {:induction false} Utf16Injective(a: string, b: string)
    requires Utf16(a) == Utf16(b)
    ensures a == b
  {
    if a != "" && b != "" {
      var x, y := a[0] as int, b[0] as int;
      assert Utf16(a)[0] == Units(a[0])[0] && Utf16(b)[0] == Units(b[0])[0];
      assert x >= 0x10000 <==> 0xD800 <= Utf16(a)[0] < 0xDC00;
      assert y >= 0x10000 <==> 0xD800 <= Utf16(b)[0] < 0xDC00;
      if x >= 0x10000 {
        assert Utf16(a)[1] == Units(a[0])[1] && Utf16(b)[1] == Units(b[0])[1];
      }
      assert x == y;
      assert a[0] == b[0];
      assert Utf16(a[1..]) == Utf16(a)[|Units(a[0])|..];
      assert Utf16(b[1..]) == Utf16(b)[|Units(b[0])|..];
      Utf16Injective(a[1..], b[1..]);
      assert a == [a[0]] + a[1..] && b == [b[0]] + b[1..];
    }
  }

  /** Sorting by UTF-16 code units is a strict total order on names. */
  lemma NameOrderTotal(a: string, b: string)
    ensures a == b || NameLess(a, b) || NameLess(b, a)
    ensures !(NameLess(a, b) && NameLess(b, a))
    ensures !NameLess(a, a)
  {
    LexTotal(Utf16(a), Utf16(b));
    LexTotal(Utf16(a), Utf16(a));
    if Utf16(a) == Utf16(b) {
      Utf16Injective(a, b);
    }
  }

  lemma NameOrderTransitive(a: string, b: string, c: string)
    requires NameLess(a, b) && NameLess(b, c)
    ensures NameLess(a, c)
  {
    LexTransitive(Utf16(a), Utf16(b), Utf16(c));
  }

  lemma {:induction false} LeastNameExists(names: set<string>)
    requires names != {}
    ensures exists least :: IsLeastName(least, names)
  {
    var some :| some in names;
    if names == {some} {
      assert IsLeastName(some, names);
    } else {
      var fewer := names - {some};
      LeastNameExists(fewer);
      var m :| IsLeastName(m, fewer);
      NameOrderTotal(m, some);
      if NameLess(some, m) {
        forall other | other in names ensures other == some || NameLess(some, other) {
          if other != some && other != m {
            NameOrderTransitive(some, m, other);
          }
        }
        assert IsLeastName(some, names);
      } else {
        assert IsLeastName(m, names);
      }
    }
  }

  lemma LeastNameUnique(a: string, b: string, names: set<string>)
    requires IsLeastName(a, names) && IsLeastName(b, names)
    ensures a == b
  {
    NameOrderTotal(a, b);
  }

  function LeastName(names: set<string>): (least: string)
    requires names != {}
    ensures IsLeastName(least, names)
  {
    LeastNameExists(names);
    assert forall a, b | IsLeastName(a, names) && IsLeastName(b, names) :: a == b by {
      forall a, b | IsLeastName(a, names) && IsLeastName(b, names) ensures a == b {
        LeastNameUnique(a, b, names);
      }
    }
    var least :| IsLeastName(least, names);
    least
  }

  /** The names of an object in canonical order. */
  function SortedNames(names: set<string>): (r: seq<string>)
    ensures StrictlySorted(r)
    ensures forall name :: name in r <==> name in names
  {
    if names == {} then []
    else
      var least := LeastName(names);
      [least] + SortedNames(names - {least})
  }

  // ----- Canonical form -----

  function HexChar(d: nat): char
    requires d < 16
  {
    if d < 10 then DigitChar(d) else (d - 10 + 'a' as int) as char
  }

  function EscapeChar(c: char): string {
    if c == '"' then "\\\""
    else if c == '\\' then "\\\\"
    else if c as int == 8 then "\\b"
    else if c as int == 12 then "\\f"
    else if c == '\n' then "\\n"
    else if c == '\r' then "\\r"
    else if c == '\t' then "\\t"
    else if c as int < 0x20 then "\\u00" + [HexChar(c as int / 16), HexChar(c as int % 16)]
    else [c]
  }

  function Escape(s: string): string {
    if s == "" then "" else EscapeChar(s[0]) + Escape(s[1..])
  }

  function EncodeString(s: string): string {
    "\"" + Escape(s) + "\""
  }

  function EncodeNum(n: int): string {
    if n < 0 then "-" + Print(-n) else Print(n)
  }

  function Encode(v: Value): string
    decreases v, 0
  {
    match v
    case Null => "null"
    case Bool(b) => if b then "true" else "false"
    case Str(text) => EncodeString(text)
    case Num(n) => EncodeNum(n)
    case Arr(items) => "[" + EncodeItems(items) + "]"
    case Obj(members) => "{" + EncodeMembers(v, SortedNames(members.Keys)) + "}"
  }

  function EncodeItems(items: seq<Value>): string
    decreases items, 0
  {
    if items == [] then ""
    else if |items| == 1 then Encode(items[0])
    else Encode(items[0]) + "," + EncodeItems(items[1..])
  }

  function EncodeMember(v: Value, name: string): string
    requires v.Obj? && name in v.members
    decreases v, 0, 0
  {
    EncodeString(name) + ":" + Encode(v.members[name])
  }

  function EncodeMembers(v: Value, names: seq<string>): string
    requires v.Obj? && forall name :: name in names ==> name in v.members
    decreases v, 0, |names| + 1
  {
    if names == [] then ""
    else if |names| == 1 then EncodeMember(v, names[0])
    else EncodeMember(v, names[0]) + "," + EncodeMembers(v, names[1..])
  }

  // ----- Strict grammar -----

  predicate IsWs(c: char) {
    c == ' ' || c == '\t' || c == '\n' || c == '\r'
  }

  function SkipWs(s: string): (r: string)
    ensures |r| <= |s|
    ensures r != "" ==> !IsWs(r[0])
  {
    if s != "" && IsWs(s[0]) then SkipWs(s[1..]) else s
  }

  function HexDigit(c: char): (d: int)
    ensures -1 <= d < 16
  {
    if IsDigit(c) then DigitValue(c)
    else if 'a' <= c <= 'f' then c as int - 'a' as int + 10
    else if 'A' <= c <= 'F' then c as int - 'A' as int + 10
    else -1
  }

  function ReadHex4(s: string): (r: Parsed<nat>)
    ensures r.Ok? ==> r.value < 0x10000 && |r.rest| == |s| - 4
  {
    if |s| < 4 || HexDigit(s[0]) < 0 || HexDigit(s[1]) < 0 || HexDigit(s[2]) < 0 || HexDigit(s[3]) < 0 then
      Err(InvalidJson)
    else
      Ok(((HexDigit(s[0]) * 16 + HexDigit(s[1])) * 16 + HexDigit(s[2])) * 16 + HexDigit(s[3]), s[4..])
  }

  /** The text after `\u`: one code unit, or a surrogate pair of two escapes. */
  function ParseUnicodeEscape(s: string): (r: Parsed<char>)
    ensures r.Ok? ==> |r.rest| < |s|
  {
    match ReadHex4(s)
    case Err(e) => Err(e)
    case Ok(unit, rest) =>
      if 0xD800 <= unit <= 0xDBFF then
        if |rest| < 2 || rest[0] != '\\' || rest[1] != 'u' then Err(LoneSurrogate)
        else
          match ReadHex4(rest[2..])
          case Err(e) => Err(e)
          case Ok(low, rest') =>
            if !(0xDC00 <= low <= 0xDFFF) then Err(LoneSurrogate)
            else Ok((0x10000 + (unit - 0xD800) * 0x400 + (low - 0xDC00)) as char, rest')
      else if 0xDC00 <= unit <= 0xDFFF then Err(LoneSurrogate)
      else Ok(unit as char, rest)
  }

  /** The character a one-letter escape stands for. */
  function SimpleEscape(c: char): string {
    if c == '"' then "\""
    else if c == '\\' then "\\"
    else if c == '/' then "/"
    else if c == 'b' then [8 as char]
    else if c == 'f' then [12 as char]
    else if c == 'n' then "\n"
    else if c == 'r' then "\r"
    else if c == 't' then "\t"
    else ""
  }

  /** The text after the opening quote; `acc` is what was read so far. */
  function ParseString(s: string, acc: string): (r: Parsed<string>)
    ensures r.Ok? ==> |r.rest| < |s|
    decreases |s|
  {
    if s == "" then Err(InvalidJson)
    else if s[0] == '"' then Ok(acc, s[1..])
    else if s[0] == '\\' then
      if |s| < 2 then Err(InvalidJson)
      else if s[1] == 'u' then
        match ParseUnicodeEscape(s[2..])
        case Err(e) => Err(e)
        case Ok(c, rest) => ParseString(rest, acc + [c])
      else if SimpleEscape(s[1]) == "" then Err(InvalidJson)
      else ParseString(s[2..], acc + SimpleEscape(s[1]))
    else if s[0] as int < 0x20 then Err(InvalidJson)
    else ParseString(s[1..], acc + [s[0]])
  }

  /** The optional fraction; `Ok(true, _)` when there is one. */
  function ParseFraction(s: string): (r: Parsed<bool>)
    ensures r.Ok? ==> |r.rest| <= |s|
  {
    if s == "" || s[0] != '.' then Ok(false, s)
    else if Run(s[1..]) == 0 then Err(InvalidJson)
    else Ok(true, s[1..][Run(s[1..])..])
  }

  function ParseExponent(s: string): (r: Parsed<bool>)
    ensures r.Ok? ==> |r.rest| <= |s|
  {
    if s == "" || (s[0] != 'e' && s[0] != 'E') then Ok(false, s)
    else
      var t := if |s| > 1 && (s[1] == '+' || s[1] == '-') then s[2..] else s[1..];
      if Run(t) == 0 then Err(InvalidJson) else Ok(true, t[Run(t)..])
  }

  function IjsonInt(n: int, rest: string): Parsed<Value> {
    if -MAX_SAFE <= n <= MAX_SAFE then Ok(Num(n), rest) else Err(NumberOutsideModel)
  }

  function ParseNumber(s: string): (r: Parsed<Value>)
    ensures r.Ok? ==> |r.rest| < |s|
  {
    var negative := s != "" && s[0] == '-';
    var t := if negative then s[1..] else s;
    var k := Run(t);
    if k == 0 || (t[0] == '0' && k > 1) then Err(InvalidJson)
    else
      match ParseFraction(t[k..])
      case Err(e) => Err(e)
      case Ok(fraction, u) =>
        match ParseExponent(u)
        case Err(e) => Err(e)
        case Ok(exponent, rest) =>
          if fraction || exponent then Err(NumberOutsideModel)
          else
            var n: int := Read(t[..k]);
            IjsonInt(if negative then -n else n, rest)
  }

  function ParseLiteral(s: string, token: string, v: Value): Parsed<Value> {
    if token <= s then Ok(v, s[|token|..]) else Err(InvalidJson)
  }

  function ParseValue(s: string): (r: Parsed<Value>)
    ensures r.Ok? ==> |r.rest| < |s|
    decreases |s|, 2
  {
    var t := SkipWs(s);
    if t == "" then Err(InvalidJson)
    else if t[0] == 'n' then ParseLiteral(t, "null", Null)
    else if t[0] == 't' then ParseLiteral(t, "true", Bool(true))
    else if t[0] == 'f' then ParseLiteral(t, "false", Bool(false))
    else if t[0] == '"' then
      match ParseString(t[1..], "")
      case Err(e) => Err(e)
      case Ok(text, rest) => Ok(Str(text), rest)
    else if t[0] == '[' then ParseArray(t[1..])
    else if t[0] == '{' then ParseObject(t[1..])
    else if t[0] == '-' || IsDigit(t[0]) then ParseNumber(t)
    else Err(InvalidJson)
  }

  function ParseArray(s: string): (r: Parsed<Value>)
    ensures r.Ok? ==> |r.rest| < |s|
    decreases |s|, 4
  {
    var t := SkipWs(s);
    if t != "" && t[0] == ']' then Ok(Arr([]), t[1..]) else ParseItems(t, [])
  }

  /** The items after the first ones in `acc`, up to the closing bracket. */
  function ParseItems(s: string, acc: seq<Value>): (r: Parsed<Value>)
    ensures r.Ok? ==> |r.rest| < |s|
    decreases |s|, 3
  {
    match ParseValue(s)
    case Err(e) => Err(e)
    case Ok(v, rest) =>
      var t := SkipWs(rest);
      if t == "" then Err(InvalidJson)
      else if t[0] == ',' then ParseItems(t[1..], acc + [v])
      else if t[0] == ']' then Ok(Arr(acc + [v]), t[1..])
      else Err(InvalidJson)
  }

  function ParseObject(s: string): (r: Parsed<Value>)
    ensures r.Ok? ==> |r.rest| < |s|
    decreases |s|, 5
  {
    var t := SkipWs(s);
    if t != "" && t[0] == '}' then Ok(Obj(map[]), t[1..]) else ParseMembers(t, map[])
  }

  /** One more member: a name not yet in `members`, a colon and a value. */
  function ParseMember(s: string, members: map<string, Value>): (r: Parsed<map<string, Value>>)
    ensures r.Ok? ==> |r.rest| < |s|
    decreases |s|, 3
  {
    var t := SkipWs(s);
    if t == "" || t[0] != '"' then Err(InvalidJson)
    else
      match ParseString(t[1..], "")
      case Err(e) => Err(e)
      case Ok(name, rest) =>
        if name in members then Err(DuplicateKey)
        else
          var u := SkipWs(rest);
          if u == "" || u[0] != ':' then Err(InvalidJson)
          else
            match ParseValue(u[1..])
            case Err(e) => Err(e)
            case Ok(v, rest') => Ok(members[name := v], rest')
  }

  /** The members after those already in `members`, up to the closing brace. */
  function ParseMembers(s: string, members: map<string, Value>): (r: Parsed<Value>)
    ensures r.Ok? ==> |r.rest| < |s|
    decreases |s|, 4
  {
    match ParseMember(s, members)
    case Err(e) => Err(e)
    case Ok(grown, rest) =>
      var t := SkipWs(rest);
      if t == "" then Err(InvalidJson)
      else if t[0] == ',' then ParseMembers(t[1..], grown)
      else if t[0] == '}' then Ok(Obj(grown), t[1..])
      else Err(InvalidJson)
  }

  /** One value and nothing but white space after it. */
  function ParseStrict(s: string): Parsed<Value> {
    match ParseValue(s)
    case Err(e) => Err(e)
    case Ok(v, rest) => if SkipWs(rest) == "" then Ok(v, "") else Err(InvalidJson)
  }

  function Canonicalize(s: string): Parsed<string> {
    match ParseStrict(s)
    case Err(e) => Err(e)
    case Ok(v, _) => Ok(Encode(v), "")
  }
}
