/** The strict JSON texts as a relation between a text and the value it spells,
    by the structure of the value and without a parser, and the proof that the
    reader accepts exactly these texts: sections 2 to 7 of RFC 8259 with the
    restrictions of sections 3.1 and 3.2 of RFC 8785. */
module JcsGrammar {
  import opened Decimal
  import opened Jcs
  import opened JcsRoundTrip
  import opened Slices

  // ----- What spells what -----

  predicate Blank(s: string) {
    forall i :: 0 <= i < |s| ==> s[i] in " \t\n\r"
  }

  /** The one-letter escapes. */
  const SHORT: map<char, char> := map[
    '"' := '"', '\\' := '\\', '/' := '/', 'b' := 8 as char, 'f' := 12 as char, 'n' := '\n', 'r' := '\r', 't' := '\t'
  ]

  predicate SpellsHex(h: char, d: nat)
    requires d < 16
  {
    h == "0123456789abcdef"[d] || h == "0123456789ABCDEF"[d]
  }

  predicate SpellsUnit(h: string, u: nat) {
    && |h| == 4 && u < 0x10000
    && SpellsHex(h[0], u / 0x1000) && SpellsHex(h[1], u / 0x100 % 16)
    && SpellsHex(h[2], u / 16 % 16) && SpellsHex(h[3], u % 16)
  }

  /** `\u` and four digits for each UTF-16 code unit of `c`. */
  predicate SpellsUnits(e: string, c: char) {
    var units := Units(c);
    && |e| == 6 * |units| && e[..2] == "\\u" && SpellsUnit(e[2..6], units[0])
    && (|units| == 2 ==> e[6..8] == "\\u" && SpellsUnit(e[8..], units[1]))
  }

  /** The ways to write one character of a string: itself, unless it is a
      control character, a quote or a backslash; a one-letter escape; its code
      units. */
  predicate SpellsChar(e: string, c: char) {
    || (e == [c] && c as int >= 0x20 && c != '"' && c != '\\')
    || (|e| == 2 && e[0] == '\\' && e[1] in SHORT && SHORT[e[1]] == c)
    || SpellsUnits(e, c)
  }

  ghost predicate SpellsText(b: string, text: string)
    decreases |text|
  {
    if text == "" then b == ""
    else exists k :: 0 <= k <= |b| && SpellsChar(b[..k], text[0]) && SpellsText(b[k..], text[1..])
  }

  ghost predicate Quotes(t: string, text: string) {
    |t| >= 2 && t[0] == '"' && t[|t| - 1] == '"' && SpellsText(t[1..|t| - 1], text)
  }

  /** Decimal digits without a leading zero, after an optional minus sign. */
  predicate SpellsInt(t: string, n: int) {
    var negative := t != "" && t[0] == '-';
    var digits := if negative then t[1..] else t;
    && digits != "" && AllDigits(digits) && (digits[0] == '0' ==> |digits| == 1)
    && (if negative then -n else n) == Read(digits)
  }

  /** The names of an object in some order, each once. */
  ghost predicate Lists(names: seq<string>, keys: set<string>) {
    && (forall i, j :: 0 <= i < j < |names| ==> names[i] != names[j])
    && (forall name :: name in names <==> name in keys)
  }

  /** `t` is the value `v`, with nothing around it. */
  ghost predicate Token(t: string, v: Value)
    decreases v, 2
  {
    match v
    case Null => t == "null"
    case Bool(b) => t == if b then "true" else "false"
    case Str(text) => Quotes(t, text)
    case Num(n) => SpellsInt(t, n)
    case Arr(items) =>
      && |t| >= 2 && t[0] == '[' && t[|t| - 1] == ']'
      && if items == [] then Blank(t[1..|t| - 1]) else SpellsItems(t[1..|t| - 1], items)
    case Obj(members) =>
      && |t| >= 2 && t[0] == '{' && t[|t| - 1] == '}'
      && if members == map[] then Blank(t[1..|t| - 1])
         else exists names :: Lists(names, members.Keys) && SpellsMembers(t[1..|t| - 1], v, names)
  }

  /** `t` is the value `v` with white space around it: a whole JSON text. */
  ghost predicate Spells(t: string, v: Value)
    decreases v, 3
  {
    exists i, j :: 0 <= i <= j <= |t| && Blank(t[..i]) && Blank(t[j..]) && Token(t[i..j], v)
  }

  ghost predicate SpellsItems(t: string, items: seq<Value>)
    requires items != []
    decreases items, 0
  {
    if |items| == 1 then Spells(t, items[0])
    else exists k :: 0 <= k < |t| && t[k] == ',' && Spells(t[..k], items[0]) && SpellsItems(t[k + 1..], items[1..])
  }

  ghost predicate SpellsName(t: string, name: string) {
    exists i, j :: 0 <= i <= j <= |t| && Blank(t[..i]) && Blank(t[j..]) && Quotes(t[i..j], name)
  }

  ghost predicate SpellsMember(t: string, v: Value, name: string)
    requires v.Obj? && name in v.members
    decreases v, 0
  {
    exists k :: 0 <= k < |t| && t[k] == ':' && SpellsName(t[..k], name) && Spells(t[k + 1..], v.members[name])
  }

  ghost predicate SpellsMembers(t: string, v: Value, names: seq<string>)
    requires v.Obj? && forall name :: name in names ==> name in v.members
    decreases v, 1, |names|
  {
    if names == [] then false
    else if |names| == 1 then SpellsMember(t, v, names[0])
    else exists k :: 0 <= k < |t| && t[k] == ',' && SpellsMember(t[..k], v, names[0])
                     && SpellsMembers(t[k + 1..], v, names[1..])
  }

  /** `s` begins with white space and the value `v`, and `rest` is left. A
      number ends only where nothing continues it. */
  ghost predicate Begins(s: string, v: Value, rest: string) {
    exists i, j :: 0 <= i <= j <= |s| && rest == s[j..] && Blank(s[..i]) && Token(s[i..j], v) && (v.Num? ==> Ends(rest))
  }

  // ----- Characters -----

  lemma HexDigitIff(h: char, d: nat)
    requires d < 16
    ensures HexDigit(h) == d <==> SpellsHex(h, d)
  {
  }

  lemma DigitsOfUnit(a: nat, b: nat, c: nat, d: nat)
    requires a < 16 && b < 16 && c < 16 && d < 16
    ensures var u := ((a * 16 + b) * 16 + c) * 16 + d;
            u < 0x10000 && u / 0x1000 == a && u / 0x100 % 16 == b && u / 16 % 16 == c && u % 16 == d
  {
    var u := ((a * 16 + b) * 16 + c) * 16 + d;
    assert u / 16 == (a * 16 + b) * 16 + c;
    assert u / 0x100 == u / 16 / 16 == a * 16 + b;
    assert u / 0x1000 == u / 0x100 / 16 == a;
  }

  lemma ReadHex4Iff(s: string, u: nat, rest: string)
    ensures ReadHex4(s) == Ok(u, rest) <==> |s| >= 4 && rest == s[4..] && SpellsUnit(s[..4], u)
  {
    if |s| >= 4 {
      var a, b, c, d := HexDigit(s[0]), HexDigit(s[1]), HexDigit(s[2]), HexDigit(s[3]);
      if u < 0x10000 {
        HexDigitsOf(u);
        HexDigitIff(s[0], u / 0x1000);
        HexDigitIff(s[1], u / 0x100 % 16);
        HexDigitIff(s[2], u / 16 % 16);
        HexDigitIff(s[3], u % 16);
      }
      hide HexDigit, SpellsHex;
      if a >= 0 && b >= 0 && c >= 0 && d >= 0 {
        DigitsOfUnit(a, b, c, d);
      }
    }
  }

  lemma UnitsRead(e: string, c: char, tail: string)
    requires SpellsUnits(e, c)
    ensures ParseUnicodeEscape(e[2..] + tail) == Ok(c, tail)
  {
    hide ReadHex4, SpellsUnit;
    var units := Units(c);
    var n := c as int;
    var s := e[2..] + tail;
    assert s[..4] == e[2..6];
    if |units| == 1 {
      assert s[4..] == tail;
      ReadHex4Iff(s, n, tail);
    } else {
      ReadHex4Iff(s, units[0], s[4..]);
      assert s[4..][0] == e[6..8][0] && s[4..][1] == e[6..8][1] && s[6..] == s[4..][2..];
      assert s[6..][..4] == e[8..] && s[6..][4..] == tail;
      ReadHex4Iff(s[6..], units[1], tail);
      assert n == 0x10000 + (units[0] - 0xD800) * 0x400 + (units[1] - 0xDC00);
    }
  }

  lemma UnitsSound(s: string)
    requires ParseUnicodeEscape(s).Ok?
    ensures var r := ParseUnicodeEscape(s);
            && r.rest == s[|s| - |r.rest|..] && SpellsUnits("\\u" + s[..|s| - |r.rest|], r.value)
  {
    hide ReadHex4, SpellsUnit;
    var r := ParseUnicodeEscape(s);
    var first := ReadHex4(s);
    var e := "\\u" + s[..|s| - |r.rest|];
    ReadHex4Iff(s, first.value, first.rest);
    assert e[..2] == "\\u";
    if 0xD800 <= first.value <= 0xDBFF {
      var t := first.rest[2..];
      assert t == s[6..];
      var second := ReadHex4(t);
      ReadHex4Iff(t, second.value, second.rest);
      assert r.rest == t[4..] == s[10..];
      assert |e| == 12 && e[2..6] == s[..4] && e[8..] == t[..4];
      assert e[6..8] == "\\u";
      assert Units(r.value) == [first.value, second.value];
    } else {
      assert |e| == 6 && e[2..6] == s[..4];
      assert Units(r.value) == [first.value];
    }
  }

  lemma CharReads(e: string, c: char, tail: string, acc: string)
    requires SpellsChar(e, c)
    ensures ParseString(e + tail, acc) == ParseString(tail, acc + [c])
  {
    hide ParseUnicodeEscape, SpellsUnit;
    var s := e + tail;
    if |e| == 1 {
      assert s[1..] == tail;
    } else if |e| == 2 {
      assert s[2..] == tail && s[1] == e[1];
    } else {
      UnitsRead(e, c, tail);
      assert e[..2][1] == 'u' && e[..2][0] == '\\';
      assert s[2..] == e[2..] + tail;
    }
  }

  /** What the string reader takes first, when it succeeds: one character. */
  lemma FirstChar(s: string, acc: string) returns (k: nat, c: char)
    requires s != "" && s[0] != '"' && ParseString(s, acc).Ok?
    ensures 0 < k <= |s| && SpellsChar(s[..k], c)
    ensures ParseString(s, acc) == ParseString(s[k..], acc + [c])
  {
    hide ParseUnicodeEscape, SpellsUnits;
    if s[0] != '\\' {
      k, c := 1, s[0];
    } else if s[1] != 'u' {
      k, c := 2, SimpleEscape(s[1])[0];
    } else {
      var r := ParseUnicodeEscape(s[2..]);
      UnitsSound(s[2..]);
      k, c := |s| - |r.rest|, r.value;
      assert s[..k] == "\\u" + s[2..][..k - 2];
      assert s[k..] == r.rest;
    }
  }

  // ----- Strings -----

  lemma {:induction false} TextReads(b: string, text: string, rest: string, acc: string)
    requires SpellsText(b, text)
    ensures ParseString(b + "\"" + rest, acc) == Ok(acc + text, rest)
    decreases |text|
  {
    hide ParseString, SpellsChar;
    if text == "" {
      assert b + "\"" + rest == "\"" + rest && ("\"" + rest)[1..] == rest;
      ClosingQuote("\"" + rest, acc);
      assert acc + text == acc;
    } else {
      var k :| 0 <= k <= |b| && SpellsChar(b[..k], text[0]) && SpellsText(b[k..], text[1..]);
      var tail := b[k..] + "\"" + rest;
      Regroup(b, "\"", rest);
      Regroup(b[k..], "\"", rest);
      Parts(b, k, |b|, "\"" + rest);
      assert b[k..|b|] == b[k..] && b[|b|..] == "";
      assert "" + ("\"" + rest) == "\"" + rest;
      CharReads(b[..k], text[0], tail, acc);
      TextReads(b[k..], text[1..], rest, acc + [text[0]]);
      assert acc + [text[0]] + text[1..] == acc + text;
    }
  }

  lemma ClosingQuote(s: string, acc: string)
    requires s != "" && s[0] == '"'
    ensures ParseString(s, acc) == Ok(acc, s[1..])
  {
  }

  lemma {:induction false} TextSound(s: string, acc: string)
    requires ParseString(s, acc).Ok?
    ensures var r := ParseString(s, acc);
            var n := |s| - |r.rest| - 1;
            && 0 <= n < |s| && s[n] == '"' && s[n + 1..] == r.rest
            && acc <= r.value && SpellsText(s[..n], r.value[|acc|..])
    decreases |s|
  {
    hide SpellsChar;
    if s[0] == '"' {
      assert s[..0] == "" && acc[|acc|..] == "";
    } else {
      hide ParseString;
      var k, c := FirstChar(s, acc);
      TextSound(s[k..], acc + [c]);
      var r := ParseString(s, acc);
      var n := |s| - |r.rest| - 1;
      var text := r.value[|acc|..];
      PartOfSuffix(s, k, n);
      PartOfPrefix(s, n, k);
      assert text[0] == (acc + [c])[|acc|] == c && text[1..] == r.value[|acc + [c]|..];
    }
  }

  lemma QuotedReads(m: string, text: string, rest: string)
    requires Quotes(m, text)
    ensures (m + rest)[0] == '"' && ParseString((m + rest)[1..], "") == Ok(text, rest)
  {
    hide ParseString, SpellsText;
    var inner := m[1..|m| - 1];
    TextReads(inner, text, rest, "");
    assert (m + rest)[1..] == inner + "\"" + rest;
    assert "" + text == text;
  }

  /** A quoted string is read as the text it spells, and nothing else is read
      as a string. */
  lemma StringIff(s: string, text: string, rest: string)
    requires s != "" && s[0] == '"'
    ensures ParseString(s[1..], "") == Ok(text, rest)
       <==> |rest| <= |s| && rest == s[|s| - |rest|..] && Quotes(s[..|s| - |rest|], text)
  {
    hide ParseString, SpellsText;
    if ParseString(s[1..], "") == Ok(text, rest) {
      TextSound(s[1..], "");
      var t := s[..|s| - |rest|];
      assert t[1..|t| - 1] == s[1..][..|s| - |rest| - 2];
      assert text[|""|..] == text;
    }
    if |rest| <= |s| && rest == s[|s| - |rest|..] && Quotes(s[..|s| - |rest|], text) {
      assert s == s[..|s| - |rest|] + rest;
      QuotedReads(s[..|s| - |rest|], text, rest);
    }
  }

  // ----- Numbers -----

  /** Where a number ends, and that it has neither fraction nor exponent. */
  lemma NumberStep(s: string)
    ensures var negative := s != "" && s[0] == '-';
            var t := if negative then s[1..] else s;
            var k := Run(t);
            && (ParseNumber(s).Ok? ==> k > 0 && (t[0] == '0' ==> k == 1) && Ends(t[k..]))
            && (k > 0 && (t[0] == '0' ==> k == 1) && Ends(t[k..]) ==>
                 ParseNumber(s) == IjsonInt(if negative then 0 - Read(t[..k]) else Read(t[..k]), t[k..]))
  {
    hide Read, Run;
  }

  lemma NumberReads(m: string, n: SafeInt, rest: string)
    requires SpellsInt(m, n) && Ends(rest)
    ensures ParseNumber(m + rest) == Ok(Num(n), rest)
  {
    hide Read, Run, ParseNumber;
    var s := m + rest;
    var digits := if m[0] == '-' then m[1..] else m;
    var t := if s[0] == '-' then s[1..] else s;
    NumberStep(s);
    assert t == digits + rest;
    RunOfDigits(digits, rest);
    assert t[..|digits|] == digits && t[|digits|..] == rest && t[0] == digits[0];
  }

  lemma NumberSound(s: string, n: SafeInt, rest: string)
    requires ParseNumber(s) == Ok(Num(n), rest)
    ensures rest == s[|s| - |rest|..] && SpellsInt(s[..|s| - |rest|], n) && Ends(rest)
  {
    hide Read, Run, ParseNumber;
    var negative := s != "" && s[0] == '-';
    var t := if negative then s[1..] else s;
    var k := Run(t);
    NumberStep(s);
    assert rest == t[k..];
    var m := s[..|s| - |rest|];
    assert (if negative then m[1..] else m) == t[..k];
    assert m != "" && (m[0] == '-' <==> negative);
  }

  /** Exactly the integer tokens up to 2^53 are read, whole and as their value. */
  lemma NumberIff(s: string, n: SafeInt, rest: string)
    ensures ParseNumber(s) == Ok(Num(n), rest)
       <==> |rest| <= |s| && rest == s[|s| - |rest|..] && SpellsInt(s[..|s| - |rest|], n) && Ends(rest)
  {
    hide ParseNumber, SpellsInt;
    if ParseNumber(s) == Ok(Num(n), rest) {
      NumberSound(s, n, rest);
    }
    if |rest| <= |s| && rest == s[|s| - |rest|..] && SpellsInt(s[..|s| - |rest|], n) && Ends(rest) {
      assert s == s[..|s| - |rest|] + rest;
      NumberReads(s[..|s| - |rest|], n, rest);
    }
  }

  // ----- White space -----

  lemma {:induction false} SkipSound(s: string)
    ensures SkipWs(s) == s[|s| - |SkipWs(s)|..] && Blank(s[..|s| - |SkipWs(s)|])
  {
    if s != "" && IsWs(s[0]) {
      SkipSound(s[1..]);
      var n := |s| - |SkipWs(s)|;
      assert s[..n] == [s[0]] + s[1..][..n - 1];
    }
  }

  lemma {:induction false} SkipBlank(b: string, t: string)
    requires Blank(b) && (t == "" || !IsWs(t[0]))
    ensures SkipWs(b + t) == t
  {
    if b == "" {
      assert b + t == t;
    } else {
      assert (b + t)[0] == b[0] && (b + t)[1..] == b[1..] + t;
      SkipBlank(b[1..], t);
    }
  }

  /** Leading white space changes nothing. */
  lemma LeadingBlank(b: string, t: string)
    requires Blank(b) && t != "" && !IsWs(t[0])
    ensures ParseValue(b + t) == ParseValue(t)
  {
    SkipBlank(b, t);
    SkipBlank("", t);
    assert "" + t == t;
    hide SkipWs;
  }

  lemma SkipTwice(s: string)
    ensures SkipWs(SkipWs(s)) == SkipWs(s)
  {
    SkipBlank("", SkipWs(s));
    assert "" + SkipWs(s) == SkipWs(s);
  }

  lemma SkippedItems(s: string)
    ensures ParseItems(SkipWs(s), []) == ParseItems(s, [])
    ensures SkipWs(s) != "" && SkipWs(s)[0] == ']' ==> ParseItems(s, []).Err?
  {
    SkipTwice(s);
    assert ParseValue(SkipWs(s)) == ParseValue(s) by {
      hide SkipWs, ParseString, ParseArray, ParseObject, ParseNumber;
    }
    hide SkipWs, ParseString, ParseArray, ParseObject, ParseNumber;
  }

  lemma SkippedMembers(s: string)
    ensures ParseMembers(SkipWs(s), map[]) == ParseMembers(s, map[])
    ensures SkipWs(s) != "" && SkipWs(s)[0] == '}' ==> ParseMembers(s, map[]).Err?
  {
    SkipTwice(s);
    assert ParseMember(SkipWs(s), map[]) == ParseMember(s, map[]) by {
      hide SkipWs, ParseString, ParseValue;
    }
    hide SkipWs, ParseString, ParseValue;
  }

  lemma TokenStarts(t: string, v: Value)
    requires Token(t, v)
    ensures t != "" && !IsWs(t[0])
  {
    hide SpellsText, SpellsItems, SpellsMembers, Read;
  }

  // ----- Every text of a value is read as it -----

  lemma ListRead(t: string, items: seq<Value>, rest: string)
    requires if items == [] then Blank(t)
             else ParseItems(t + "]" + rest, []) == Ok(Arr(items), rest)
    ensures ParseArray(t + "]" + rest) == Ok(Arr(items), rest)
  {
    var s := t + "]" + rest;
    if items == [] {
      Regroup(t, "]", rest);
      Behind("]", rest);
      SkipBlank(t, "]" + rest);
    } else {
      SkippedItems(s);
      hide ParseItems, SkipWs;
    }
  }

  lemma RecordRead(t: string, members: map<string, Value>, rest: string)
    requires if members == map[] then Blank(t)
             else ParseMembers(t + "}" + rest, map[]) == Ok(Obj(members), rest)
    ensures ParseObject(t + "}" + rest) == Ok(Obj(members), rest)
  {
    var s := t + "}" + rest;
    if members == map[] {
      Regroup(t, "}", rest);
      Behind("}", rest);
      SkipBlank(t, "}" + rest);
    } else {
      SkippedMembers(s);
      hide ParseMembers, SkipWs;
    }
  }

  lemma WordReads(t: string, v: Value, rest: string)
    requires Token(t, v) && (v.Null? || v.Bool?)
    ensures ParseValue(t + rest) == Ok(v, rest)
  {
    assert t <= t + rest && (t + rest)[|t|..] == rest;
  }

  /** A token between brackets, once the first one is read. */
  lemma Opened(t: string, rest: string, close: char)
    requires |t| >= 2 && t[|t| - 1] == close
    ensures (t + rest)[1..] == t[1..|t| - 1] + [close] + rest
  {
    assert t[1..] == t[1..|t| - 1] + [close];
  }

  /** A token is read whole, whatever follows it, but for a number that the
      next character would continue. */
  lemma {:induction false} TokenReads(t: string, v: Value, rest: string)
    requires Token(t, v) && (v.Num? ==> Ends(rest))
    ensures ParseValue(t + rest) == Ok(v, rest)
    decreases v, 2
  {
    var s := t + rest;
    assert |rest| <= |s| && rest == s[|s| - |rest|..] && t == s[..|s| - |rest|];
    TokenStarts(t, v);
    hide ParseValue, ParseArray, ParseObject, ParseString, ParseNumber, SpellsText, SpellsItems, SpellsMembers;
    ValueStep(s);
    match v
    case Null => WordReads(t, v, rest);
    case Bool(b) => WordReads(t, v, rest);
    case Str(text) => StringIff(s, text, rest);
    case Num(n) => NumberIff(s, n, rest);
    case Arr(items) =>
      var inner := t[1..|t| - 1];
      Opened(t, rest, ']');
      if items != [] {
        ItemsRead(inner, items, rest, []);
        assert [] + items == items;
      }
      ListRead(inner, items, rest);
    case Obj(members) =>
      var inner := t[1..|t| - 1];
      Opened(t, rest, '}');
      if members != map[] {
        var names :| Lists(names, members.Keys) && SpellsMembers(inner, v, names);
        MembersRead(inner, v, names, rest, map[]);
      }
      RecordRead(inner, members, rest);
  }

  /** What closes or separates values. */
  predicate Stops(tail: string) {
    tail == "" || tail[0] == ',' || tail[0] == ']' || tail[0] == '}'
  }

  lemma ValueSpan(t: string, v: Value) returns (i: nat, j: nat)
    requires Spells(t, v)
    ensures i <= j <= |t| && Blank(t[..i]) && Blank(t[j..]) && Token(t[i..j], v)
  {
    hide Token, Blank;
    i, j :| 0 <= i <= j <= |t| && Blank(t[..i]) && Blank(t[j..]) && Token(t[i..j], v);
  }

  lemma {:induction false} PaddedReads(t: string, v: Value, tail: string)
    requires Spells(t, v) && Stops(tail)
    ensures var r := ParseValue(t + tail);
            r.Ok? && r.value == v && SkipWs(r.rest) == tail
    decreases v, 3
  {
    hide *;
    var i, j := ValueSpan(t, v);
    var rest := t[j..] + tail;
    EndsAfter(t[j..], tail);
    TokenReads(t[i..j], v, rest);
    TokenStarts(t[i..j], v);
    LeadingBlank(t[..i], t[i..j] + rest);
    Parts(t, i, j, tail);
    SkipBlank(t[j..], tail);
  }

  lemma EndsAfter(b: string, tail: string)
    requires Blank(b) && Stops(tail)
    ensures Ends(b + tail) && (tail == "" || !IsWs(tail[0]))
  {
    if b == "" {
      assert b + tail == tail;
    } else {
      assert (b + tail)[0] == b[0];
    }
  }

  lemma ItemEnds(s: string, acc: seq<Value>)
    requires ParseValue(s).Ok?
    ensures var v, t := ParseValue(s).value, SkipWs(ParseValue(s).rest);
            && (t == "" ==> ParseItems(s, acc).Err?)
            && (t != "" ==> ParseItems(s, acc) == if t[0] == ',' then ParseItems(t[1..], acc + [v])
                                                  else if t[0] == ']' then Ok(Arr(acc + [v]), t[1..])
                                                  else Err(InvalidJson))
  {
    hide ParseValue, SkipWs;
  }

  lemma FirstItem(t: string, items: seq<Value>) returns (k: nat)
    requires |items| > 1 && SpellsItems(t, items)
    ensures k < |t| && t[k] == ',' && Spells(t[..k], items[0]) && SpellsItems(t[k + 1..], items[1..])
  {
    hide Spells;
    k :| 0 <= k < |t| && t[k] == ',' && Spells(t[..k], items[0]) && SpellsItems(t[k + 1..], items[1..]);
  }

  lemma LastItem(t: string, v: Value)
    requires SpellsItems(t, [v])
    ensures Spells(t, v)
  {
  }

  lemma {:induction false} ItemsRead(t: string, items: seq<Value>, rest: string, acc: seq<Value>)
    requires items != [] && SpellsItems(t, items)
    ensures ParseItems(t + "]" + rest, acc) == Ok(Arr(acc + items), rest)
    decreases items, 0
  {
    hide *;
    var v := items[0];
    if |items| == 1 {
      var tail := "]" + rest;
      assert items == [v];
      LastItem(t, v);
      StopsAt(tail);
      PaddedReads(t, v, tail);
      ItemEnds(t + tail, acc);
      Regroup(t, "]", rest);
      Behind("]", rest);
    } else {
      var k := FirstItem(t, items);
      ItemsRead(t[k + 1..], items[1..], rest, acc + [v]);
      var more := t[k + 1..] + "]" + rest;
      var tail := "," + more;
      StopsAt(tail);
      PaddedReads(t[..k], v, tail);
      ItemEnds(t[..k] + tail, acc);
      Regroup(t, "]", rest);
      CutAt(t, k, "]" + rest);
      Regroup(t[k + 1..], "]", rest);
      Behind(",", more);
      assert acc + [v] + items[1..] == acc + items;
    }
  }

  lemma StopsAt(tail: string)
    requires tail != "" && (tail[0] == ',' || tail[0] == ']' || tail[0] == '}')
    ensures Stops(tail)
  {
  }

  /** `all` is what `acc` becomes when the named members are added to it. */
  ghost predicate Completes(acc: map<string, Value>, names: seq<string>, all: map<string, Value>) {
    && (forall i, j :: 0 <= i < j < |names| ==> names[i] != names[j])
    && (forall name :: name in names ==> name in all && name !in acc)
    && (forall name :: name in all ==> name in names || name in acc)
    && (forall name :: name in acc ==> name in all && acc[name] == all[name])
  }

  lemma CompletesStep(acc: map<string, Value>, names: seq<string>, all: map<string, Value>)
    requires names != [] && names[0] in all
    ensures Completes(acc, names, all)
       <==> names[0] !in acc && names[0] !in names[1..] && Completes(acc[names[0] := all[names[0]]], names[1..], all)
  {
    assert forall i :: 1 <= i < |names| ==> names[i] == names[1..][i - 1];
    assert forall name :: name in names <==> name == names[0] || name in names[1..];
  }

  lemma NameSpan(h: string, name: string) returns (i: nat, j: nat)
    requires SpellsName(h, name)
    ensures i < j <= |h| && Blank(h[..i]) && Blank(h[j..]) && Quotes(h[i..j], name) && h[i] == '"'
  {
    hide SpellsText, Blank;
    i, j :| 0 <= i <= j <= |h| && Blank(h[..i]) && Blank(h[j..]) && Quotes(h[i..j], name);
  }

  lemma NameReads(h: string, name: string, u: string)
    requires SpellsName(h, name) && u != "" && u[0] == ':'
    ensures var q := SkipWs(h + u);
            && q != "" && q[0] == '"'
            && ParseString(q[1..], "").Ok? && ParseString(q[1..], "").value == name
            && SkipWs(ParseString(q[1..], "").rest) == u
  {
    assert !IsWs(':') && !IsWs('"');
    hide *;
    var i, j := NameSpan(h, name);
    var rest := h[j..] + u;
    Parts(h, i, j, u);
    QuotedReads(h[i..j], name, rest);
    SkipBlank(h[..i], h[i..j] + rest);
    SkipBlank(h[j..], u);
  }

  lemma MemberReads(t: string, v: Value, name: string, tail: string, acc: map<string, Value>)
    requires v.Obj? && name in v.members && name !in acc && SpellsMember(t, v, name) && Stops(tail)
    ensures var r := ParseMember(t + tail, acc);
            r.Ok? && r.value == acc[name := v.members[name]] && SkipWs(r.rest) == tail
    decreases v, 0
  {
    hide ParseValue, ParseString, Spells, SpellsName, SkipWs;
    var k :| 0 <= k < |t| && t[k] == ':' && SpellsName(t[..k], name) && Spells(t[k + 1..], v.members[name]);
    var u := ":" + t[k + 1..] + tail;
    CutAt(t, k, tail);
    Regroup(":", t[k + 1..], tail);
    NameReads(t[..k], name, u);
    Behind(":", t[k + 1..] + tail);
    PaddedReads(t[k + 1..], v.members[name], tail);
  }

  lemma MemberEnds(s: string, acc: map<string, Value>)
    requires ParseMember(s, acc).Ok?
    ensures var grown, t := ParseMember(s, acc).value, SkipWs(ParseMember(s, acc).rest);
            && (t == "" ==> ParseMembers(s, acc).Err?)
            && (t != "" ==> ParseMembers(s, acc) == if t[0] == ',' then ParseMembers(t[1..], grown)
                                                    else if t[0] == '}' then Ok(Obj(grown), t[1..])
                                                    else Err(InvalidJson))
  {
    hide ParseMember, SkipWs;
  }

  lemma {:induction false} MembersRead(
      t: string, v: Value, names: seq<string>, rest: string, acc: map<string, Value>)
    requires v.Obj? && Completes(acc, names, v.members) && SpellsMembers(t, v, names)
    ensures ParseMembers(t + "}" + rest, acc) == Ok(v, rest)
    decreases v, 1, |names|
  {
    hide ParseMembers, ParseMember, SpellsMember, SkipWs;
    var s := t + "}" + rest;
    var grown := acc[names[0] := v.members[names[0]]];
    CompletesStep(acc, names, v.members);
    if |names| == 1 {
      Regroup(t, "}", rest);
      Behind("}", rest);
      MemberReads(t, v, names[0], "}" + rest, acc);
      MemberEnds(s, acc);
      assert grown == v.members;
    } else {
      var k :| 0 <= k < |t| && t[k] == ',' && SpellsMember(t[..k], v, names[0])
               && SpellsMembers(t[k + 1..], v, names[1..]);
      var tail := "," + t[k + 1..] + "}" + rest;
      Regroup(t, "}", rest);
      CutAt(t, k, "}" + rest);
      Regroup(t[k + 1..], "}", rest);
      Regroup(",", t[k + 1..], "}");
      Regroup(",", t[k + 1..] + "}", rest);
      Behind(",", t[k + 1..] + "}" + rest);
      MemberReads(t[..k], v, names[0], tail, acc);
      MemberEnds(s, acc);
      MembersRead(t[k + 1..], v, names[1..], rest, grown);
    }
  }

  // ----- What is read spells what it is read as -----

  lemma WordSound(t: string)
    requires t != "" && (t[0] == 'n' || t[0] == 't' || t[0] == 'f') && ParseValue(t).Ok?
    ensures var r := ParseValue(t);
            r.rest == t[|t| - |r.rest|..] && Token(t[..|t| - |r.rest|], r.value) && !r.value.Num?
  {
  }

  lemma NumberIsNum(s: string)
    ensures ParseNumber(s).Ok? ==> ParseNumber(s).value.Num?
  {
  }

  /** The characters a value may start with. */
  lemma FirstOfValue(t: string)
    requires t != "" && !IsWs(t[0]) && ParseValue(t).Ok?
    ensures t[0] == 'n' || t[0] == 't' || t[0] == 'f' || t[0] == '"' || t[0] == '[' || t[0] == '{'
         || t[0] == '-' || IsDigit(t[0])
    ensures t[0] == '"' ==> ParseString(t[1..], "").Ok?
  {
    hide ParseArray, ParseObject, ParseNumber, ParseString;
  }

  /** The tokens of each kind of value. */
  lemma TokenOf(m: string, v: Value)
    ensures v.Str? ==> (Token(m, v) <==> Quotes(m, v.text))
    ensures v.Num? ==> (Token(m, v) <==> SpellsInt(m, v.n))
    ensures v.Arr? ==> (Token(m, v) <==>
              && |m| >= 2 && m[0] == '[' && m[|m| - 1] == ']'
              && if v.items == [] then Blank(m[1..|m| - 1]) else SpellsItems(m[1..|m| - 1], v.items))
    ensures v.Obj? ==> (Token(m, v) <==>
              && |m| >= 2 && m[0] == '{' && m[|m| - 1] == '}'
              && if v.members == map[] then Blank(m[1..|m| - 1])
                 else exists names :: Lists(names, v.members.Keys) && SpellsMembers(m[1..|m| - 1], v, names))
  {
    hide Quotes, SpellsInt, Blank, SpellsItems, SpellsMembers, Lists;
  }

  lemma {:induction false} TokenSound(t: string)
    requires t != "" && !IsWs(t[0]) && ParseValue(t).Ok?
    ensures var r := ParseValue(t);
            && r.rest == t[|t| - |r.rest|..] && Token(t[..|t| - |r.rest|], r.value)
            && (r.value.Num? ==> Ends(r.rest))
    decreases |t|, 1
  {
    hide *;
    var r := ParseValue(t);
    var m := t[..|t| - |r.rest|];
    FirstOfValue(t);
    ValueStep(t);
    TokenOf(m, r.value);
    if t[0] == '"' {
      StringIff(t, r.value.text, r.rest);
    } else if t[0] == '[' {
      ArraySound(t[1..]);
      PartOfSuffix(t, 1, |m| - 1);
      PartOfPrefix(t, |m|, |m| - 1);
    } else if t[0] == '{' {
      ObjectSound(t[1..]);
      PartOfSuffix(t, 1, |m| - 1);
      PartOfPrefix(t, |m|, |m| - 1);
    } else if t[0] == 'n' || t[0] == 't' || t[0] == 'f' {
      WordSound(t);
    } else {
      NumberIsNum(t);
      NumberIff(t, r.value.n, r.rest);
    }
  }

  lemma ParseAfterBlank(s: string)
    ensures ParseValue(s) == ParseValue(SkipWs(s))
    ensures ParseValue(s).Ok? ==> SkipWs(s) != ""
  {
    SkipTwice(s);
    hide SkipWs, ParseString, ParseArray, ParseObject, ParseNumber;
  }

  lemma {:induction false} ValueSound(s: string)
    requires ParseValue(s).Ok?
    ensures Begins(s, ParseValue(s).value, ParseValue(s).rest)
    decreases |s|, 2
  {
    hide ParseValue, SkipWs, Token;
    var t := SkipWs(s);
    ParseAfterBlank(s);
    TokenSound(t);
    SkipSound(s);
    var r := ParseValue(s);
    var i, j := |s| - |t|, |s| - |r.rest|;
    PartOfSuffix(s, i, j);
  }

  lemma SpellsAround(s: string, i: nat, j: nat, k: nat, v: Value)
    requires i <= j <= k <= |s| && Blank(s[..i]) && Blank(s[j..k]) && Token(s[i..j], v)
    ensures Spells(s[..k], v)
  {
    hide Token, Blank;
    var m := s[..k];
    PartOfPrefix(s, k, i);
    PartOfPrefix(s, k, j);
    assert m[i..j] == s[i..j] && m[j..] == s[j..k];
  }

  lemma SpanOf(s: string, v: Value, rest: string) returns (i: nat, j: nat)
    requires Begins(s, v, rest)
    ensures i <= j <= |s| && rest == s[j..] && Blank(s[..i]) && Token(s[i..j], v) && (v.Num? ==> Ends(rest))
  {
    hide Token;
    i, j :| 0 <= i <= j <= |s| && rest == s[j..] && Blank(s[..i]) && Token(s[i..j], v) && (v.Num? ==> Ends(rest));
  }

  /** A value and the white space around it. */
  lemma PaddedSound(s: string)
    requires ParseValue(s).Ok?
    ensures var r := ParseValue(s);
            var t := SkipWs(r.rest);
            |t| <= |s| && t == s[|s| - |t|..] && Spells(s[..|s| - |t|], r.value)
    decreases |s|, 3
  {
    hide *;
    ValueSound(s);
    var r := ParseValue(s);
    var t := SkipWs(r.rest);
    var i, j := SpanOf(s, r.value, r.rest);
    SkipSound(r.rest);
    var k := |s| - |t|;
    PartOfSuffix(s, j, k);
    SpellsAround(s, i, j, k, r.value);
  }

  lemma OneItem(m: string, v: Value)
    requires Spells(m, v)
    ensures SpellsItems(m, [v])
  {
  }

  lemma MoreItems(m: string, k: nat, v: Value, items: seq<Value>)
    requires k < |m| && m[k] == ',' && items != [] && Spells(m[..k], v) && SpellsItems(m[k + 1..], items)
    ensures SpellsItems(m, [v] + items)
  {
    assert ([v] + items)[1..] == items;
  }

  lemma {:induction false} ItemsSound(s: string, acc: seq<Value>)
    requires ParseItems(s, acc).Ok?
    ensures var r := ParseItems(s, acc);
            var n := |s| - |r.rest| - 1;
            && 0 <= n < |s| && s[n] == ']' && r.rest == s[n + 1..]
            && r.value.Arr? && acc < r.value.items && SpellsItems(s[..n], r.value.items[|acc|..])
    decreases |s|, 4
  {
    hide *;
    ItemsNeedValue(s, acc);
    PaddedSound(s);
    ItemEnds(s, acc);
    var v := ParseValue(s).value;
    var t := SkipWs(ParseValue(s).rest);
    var r := ParseItems(s, acc);
    var k := |s| - |t|;
    if t[0] == ',' {
      ItemsSound(t[1..], acc + [v]);
      var n := |s| - |r.rest| - 1;
      var m := s[..n];
      var more := r.value.items[|acc| + 1..];
      PartOfPrefix(s, n, k);
      PartBehind(s, k, n);
      MoreItems(m, k, v, more);
      assert r.value.items[|acc|] == (acc + [v])[|acc|] == v;
      assert r.value.items[|acc|..] == [v] + more;
    } else {
      OneItem(s[..k], v);
      assert r.value.items[|acc|..] == [v];
    }
  }

  lemma ItemsNeedValue(s: string, acc: seq<Value>)
    requires ParseItems(s, acc).Ok?
    ensures ParseValue(s).Ok?
  {
    hide ParseValue;
  }

  lemma {:induction false} ArraySound(s: string)
    requires ParseArray(s).Ok?
    ensures var r := ParseArray(s);
            var n := |s| - |r.rest| - 1;
            && 0 <= n < |s| && s[n] == ']' && r.rest == s[n + 1..] && r.value.Arr?
            && (if r.value.items == [] then Blank(s[..n]) else SpellsItems(s[..n], r.value.items))
    decreases |s|, 5
  {
    hide ParseItems, SkipWs, SpellsItems;
    var r := ParseArray(s);
    var t := SkipWs(s);
    SkipSound(s);
    SkippedItems(s);
    if t == "" || t[0] != ']' {
      ItemsSound(s, []);
      assert r.value.items[0..] == r.value.items;
    }
  }

  lemma MembersNeedMember(s: string, acc: map<string, Value>)
    requires ParseMembers(s, acc).Ok?
    ensures ParseMember(s, acc).Ok?
  {
    hide ParseMember;
  }

  /** A name, a colon and a value, with white space around each. */
  lemma {:induction false} MemberSound(s: string, acc: map<string, Value>) returns (name: string, v: Value)
    requires ParseMember(s, acc).Ok?
    ensures var r := ParseMember(s, acc);
            var t := SkipWs(r.rest);
            && name !in acc && r.value == acc[name := v]
            && |t| <= |s| && t == s[|s| - |t|..]
            && exists k :: 0 <= k < |s| - |t| && s[k] == ':' && SpellsName(s[..k], name)
                           && Spells(s[k + 1..|s| - |t|], v)
    decreases |s|, 4
  {
    hide ParseValue, ParseString, SkipWs, Spells, Quotes;
    var q := SkipWs(s);
    var text := ParseString(q[1..], "");
    name := text.value;
    var u := SkipWs(text.rest);
    var r := ParseValue(u[1..]);
    v := r.value;
    var t := SkipWs(r.rest);
    NameSound(s);
    PaddedSound(u[1..]);
    var k := |s| - |u|;
    PartBehind(s, k, |s| - |t|);
  }

  lemma NameAround(s: string, i: nat, j: nat, n: nat, name: string)
    requires i <= j <= n <= |s| && Blank(s[..i]) && Quotes(s[i..j], name) && Blank(s[j..n])
    ensures SpellsName(s[..n], name)
  {
    hide Quotes, Blank;
    var h := s[..n];
    PartOfPrefix(s, n, i);
    PartOfPrefix(s, n, j);
    assert h[i..j] == s[i..j] && h[j..] == s[j..n];
  }

  lemma NameSound(s: string)
    requires SkipWs(s) != "" && SkipWs(s)[0] == '"' && ParseString(SkipWs(s)[1..], "").Ok?
    ensures var text := ParseString(SkipWs(s)[1..], "");
            var u := SkipWs(text.rest);
            |u| <= |s| && u == s[|s| - |u|..] && SpellsName(s[..|s| - |u|], text.value)
  {
    hide *;
    var q := SkipWs(s);
    var text := ParseString(q[1..], "");
    var u := SkipWs(text.rest);
    SkipSound(s);
    StringIff(q, text.value, text.rest);
    SkipSound(text.rest);
    var i, j, n := |s| - |q|, |s| - |text.rest|, |s| - |u|;
    PartOfSuffix(s, i, j);
    PartOfSuffix(s, j, n);
    NameAround(s, i, j, n, text.value);
  }

  lemma OneMember(s: string, c: nat, k: nat, v: Value, name: string)
    requires v.Obj? && name in v.members && c < k <= |s| && s[c] == ':'
    requires SpellsName(s[..c], name) && Spells(s[c + 1..k], v.members[name])
    ensures SpellsMember(s[..k], v, name) && SpellsMembers(s[..k], v, [name])
  {
    hide SpellsName, Spells;
    var m := s[..k];
    PartOfPrefix(s, k, c);
    assert m[c + 1..] == s[c + 1..k];
  }

  lemma MoreMembers(s: string, k: nat, n: nat, v: Value, name: string, names: seq<string>)
    requires v.Obj? && name in v.members && forall other :: other in names ==> other in v.members
    requires k < n <= |s| && s[k] == ',' && names != []
    requires SpellsMember(s[..k], v, name) && SpellsMembers(s[k + 1..n], v, names)
    ensures SpellsMembers(s[..n], v, [name] + names)
  {
    hide SpellsMember;
    assert ([name] + names)[1..] == names;
    var m := s[..n];
    PartOfPrefix(s, n, k);
    assert m[k + 1..] == s[k + 1..n];
  }

  /** The members read after those in `acc`: their names, in the order of the
      text, with none repeated. */
  lemma {:induction false} MembersSound(s: string, acc: map<string, Value>) returns (names: seq<string>)
    requires ParseMembers(s, acc).Ok?
    ensures var r := ParseMembers(s, acc);
            var n := |s| - |r.rest| - 1;
            && 0 <= n < |s| && s[n] == '}' && r.rest == s[n + 1..]
            && r.value.Obj? && names != [] && Completes(acc, names, r.value.members)
            && SpellsMembers(s[..n], r.value, names)
    decreases |s|, 5
  {
    hide *;
    MembersNeedMember(s, acc);
    MemberEnds(s, acc);
    var name, v := MemberSound(s, acc);
    var t := SkipWs(ParseMember(s, acc).rest);
    var r := ParseMembers(s, acc);
    var k := |s| - |t|;
    var c :| 0 <= c < k && s[c] == ':' && SpellsName(s[..c], name) && Spells(s[c + 1..k], v);
    if t[0] == ',' {
      var more := MembersSound(t[1..], acc[name := v]);
      FirstCompletes(acc, name, v, more, r.value.members);
      names := [name] + more;
      OneMember(s, c, k, r.value, name);
      var n := |s| - |r.rest| - 1;
      PartBehind(s, k, n);
      MoreMembers(s, k, n, r.value, name, more);
    } else {
      LastCompletes(acc, name, v);
      names := [name];
      assert [name] + [] == names;
      OneMember(s, c, k, r.value, name);
    }
  }

  lemma LastCompletes(acc: map<string, Value>, name: string, v: Value)
    requires name !in acc
    ensures Completes(acc, [name], acc[name := v])
  {
  }

  lemma FirstCompletes(acc: map<string, Value>, name: string, v: Value, more: seq<string>, all: map<string, Value>)
    requires name !in acc && Completes(acc[name := v], more, all)
    ensures Completes(acc, [name] + more, all) && name in all && all[name] == v
    ensures forall other :: other in [name] + more ==> other in all
  {
    assert ([name] + more)[1..] == more;
    CompletesStep(acc, [name] + more, all);
  }

  lemma {:induction false} ObjectSound(s: string)
    requires ParseObject(s).Ok?
    ensures var r := ParseObject(s);
            var n := |s| - |r.rest| - 1;
            && 0 <= n < |s| && s[n] == '}' && r.rest == s[n + 1..] && r.value.Obj?
            && (if r.value.members == map[] then Blank(s[..n])
                else exists names :: Lists(names, r.value.members.Keys) && SpellsMembers(s[..n], r.value, names))
    decreases |s|, 6
  {
    hide ParseMembers, SkipWs, SpellsMembers;
    var r := ParseObject(s);
    var t := SkipWs(s);
    SkipSound(s);
    SkippedMembers(s);
    if t == "" || t[0] != '}' {
      var names := MembersSound(s, map[]);
      assert names[0] in r.value.members;
      assert Lists(names, r.value.members.Keys);
    }
  }

  // ----- The reader accepts exactly the texts that spell a value -----

  /** The prefix form: a value is read from a text, and `rest` is left, exactly
      when the text begins with white space and a spelling of the value. */
  lemma ValueIff(s: string, v: Value, rest: string)
    ensures ParseValue(s) == Ok(v, rest) <==> Begins(s, v, rest)
  {
    hide ParseValue, Token;
    if ParseValue(s) == Ok(v, rest) {
      ValueSound(s);
    }
    if Begins(s, v, rest) {
      var i, j := SpanOf(s, v, rest);
      TokenReads(s[i..j], v, rest);
      TokenStarts(s[i..j], v);
      LeadingBlank(s[..i], s[i..j] + rest);
      Parts(s, i, j, "");
    }
  }

  /** A text is accepted as a value exactly when it spells that value. */
  lemma StrictIff(t: string, v: Value)
    ensures ParseStrict(t) == Ok(v, "") <==> Spells(t, v)
  {
    hide ParseValue, SkipWs;
    if ParseStrict(t) == Ok(v, "") {
      PaddedSound(t);
      hide Spells;
      assert t[..|t| - |""|] == t;
    }
    if Spells(t, v) {
      PaddedReads(t, v, "");
      hide Spells;
      assert t + "" == t;
    }
  }

  /** No text spells two values. */
  lemma SpellsOneValue(t: string, v: Value, w: Value)
    requires Spells(t, v) && Spells(t, w)
    ensures v == w
  {
    StrictIff(t, v);
    StrictIff(t, w);
  }
}
