/** Parsing undoes printing: sections 3.2.2 and 3.2.3 of RFC 8785. */
module JcsRoundTrip {
  import opened Decimal
  import opened Jcs

  /** What may follow a value: nothing a number token would swallow. */
  predicate Ends(rest: string) {
    rest == "" || (!IsDigit(rest[0]) && rest[0] != '.' && rest[0] != 'e' && rest[0] != 'E')
  }

  ghost predicate RoundTrips(v: Value) {
    forall rest | Ends(rest) :: ParseValue(Encode(v) + rest) == Ok(v, rest)
  }

  // ----- Strings -----

  lemma EscapeCharParses(c: char, tail: string, acc: string)
    ensures ParseString(EscapeChar(c) + tail, acc) == ParseString(tail, acc + [c])
  {
    var e := EscapeChar(c);
    var s := e + tail;
    if |e| == 1 {
      assert s[1..] == tail;
    } else if |e| == 2 {
      assert s[2..] == tail;
    } else {
      var body := s[2..];
      assert body[0] == '0' && body[1] == '0';
      assert body[2] == HexChar(c as int / 16) && body[3] == HexChar(c as int % 16);
      assert ReadHex4(body) == Ok(c as int, body[4..]);
      assert body[4..] == tail;
      assert ParseUnicodeEscape(body) == Ok(c, tail);
    }
  }

  lemma {:induction false} EscapeParses(text: string, rest: string, acc: string)
    ensures ParseString(Escape(text) + "\"" + rest, acc) == Ok(acc + text, rest)
  {
    hide EscapeChar;
    if text == "" {
      assert (Escape(text) + "\"" + rest)[1..] == rest;
      assert acc + text == acc;
    } else {
      var tail := Escape(text[1..]) + "\"" + rest;
      assert Escape(text) + "\"" + rest == EscapeChar(text[0]) + tail;
      EscapeCharParses(text[0], tail, acc);
      EscapeParses(text[1..], rest, acc + [text[0]]);
      assert acc + [text[0]] + text[1..] == acc + text;
    }
  }

  lemma EncodedStringParses(text: string, rest: string)
    ensures EncodeString(text) + rest != "" && (EncodeString(text) + rest)[0] == '"'
    ensures ParseString((EncodeString(text) + rest)[1..], "") == Ok(text, rest)
  {
    EscapeParses(text, rest, "");
    assert (EncodeString(text) + rest)[1..] == Escape(text) + "\"" + rest;
    assert "" + text == text;
  }

  function Hex4(u: nat): string
    requires u < 0x10000
  {
    [HexChar(u / 0x1000), HexChar(u / 0x100 % 16), HexChar(u / 16 % 16), HexChar(u % 16)]
  }

  lemma HexCharReads(d: nat)
    requires d < 16
    ensures HexDigit(HexChar(d)) == d
  {
  }

  lemma HexDigitsOf(u: nat)
    requires u < 0x10000
    ensures ((u / 0x1000 * 16 + u / 0x100 % 16) * 16 + u / 16 % 16) * 16 + u % 16 == u
  {
    assert u / 0x100 / 16 == u / 0x1000;
    assert u / 16 / 16 == u / 0x100;
  }

  lemma ReadHex4OfHex4(u: nat, rest: string)
    requires u < 0x10000
    ensures ReadHex4(Hex4(u) + rest) == Ok(u, rest)
  {
    var s := Hex4(u) + rest;
    assert s[4..] == rest;
    HexCharReads(u / 0x1000);
    HexCharReads(u / 0x100 % 16);
    HexCharReads(u / 16 % 16);
    HexCharReads(u % 16);
    HexDigitsOf(u);
  }

  /** Every scalar value may be written as `\u` escapes of its UTF-16 code
      units; a supplementary one needs the surrogate pair. */
  function UnicodeEscape(c: char): string {
    var units := Units(c);
    if |units| == 1 then Hex4(units[0]) else Hex4(units[0]) + "\\u" + Hex4(units[1])
  }

  lemma UnicodeEscapeParses(c: char, rest: string)
    ensures ParseUnicodeEscape(UnicodeEscape(c) + rest) == Ok(c, rest)
  {
    hide ReadHex4, Hex4;
    var units := Units(c);
    var n := c as int;
    if |units| == 1 {
      ReadHex4OfHex4(n, rest);
    } else {
      var more := "\\u" + Hex4(units[1]) + rest;
      assert UnicodeEscape(c) + rest == Hex4(units[0]) + more;
      ReadHex4OfHex4(units[0], more);
      assert more[2..] == Hex4(units[1]) + rest;
      ReadHex4OfHex4(units[1], rest);
      assert n == 0x10000 + (units[0] - 0xD800) * 0x400 + (units[1] - 0xDC00);
    }
  }

  /** A surrogate that no partner follows is refused. */
  lemma LoneSurrogateRefused(unit: nat, rest: string)
    requires 0xD800 <= unit <= 0xDFFF
    requires 0xDC00 <= unit || !("\\u" <= rest)
    ensures ParseUnicodeEscape(Hex4(unit) + rest) == Err(LoneSurrogate)
  {
    ReadHex4OfHex4(unit, rest);
    if |rest| >= 2 && rest[0] == '\\' && rest[1] == 'u' {
      assert rest[..2] == "\\u";
    }
  }

  // ----- Numbers -----

  lemma EncodedNumParses(n: SafeInt, rest: string)
    requires Ends(rest)
    ensures ParseNumber(EncodeNum(n) + rest) == Ok(Num(n), rest)
  {
    hide Print, Read, Run;
    var magnitude := if n < 0 then -n else n;
    var digits := Print(magnitude);
    var s := EncodeNum(n) + rest;
    var t := digits + rest;
    assert if n < 0 then s[0] == '-' && s[1..] == t else s == t && s[0] == digits[0];
    RunOfDigits(digits, rest);
    assert t[..|digits|] == digits && t[|digits|..] == rest;
    ReadOfPrint(magnitude);
  }

  // ----- Values -----

  /** The first character of a value's text decides how it is parsed. */
  lemma EncodingStarts(v: Value)
    ensures Encode(v) != ""
    ensures var c := Encode(v)[0]; !IsWs(c) && c != ']' && c != '}'
    ensures v.Num? ==> Encode(v)[0] == '-' || IsDigit(Encode(v)[0])
  {
  }

  lemma ItemStep(s: string, acc: seq<Value>, v: Value, tail: string)
    requires ParseValue(s) == Ok(v, tail) && tail != ""
    ensures tail[0] == ',' ==> ParseItems(s, acc) == ParseItems(tail[1..], acc + [v])
    ensures tail[0] == ']' ==> ParseItems(s, acc) == Ok(Arr(acc + [v]), tail[1..])
  {
  }

  lemma {:induction false} ItemsParse(items: seq<Value>, rest: string, acc: seq<Value>)
    requires items != [] && forall i :: 0 <= i < |items| ==> RoundTrips(items[i])
    ensures ParseItems(EncodeItems(items) + "]" + rest, acc) == Ok(Arr(acc + items), rest)
  {
    hide ParseValue, ParseItems, Encode;
    if |items| == 1 {
      assert EncodeItems(items) + "]" + rest == Encode(items[0]) + ("]" + rest);
      assert Ends("]" + rest);
      assert ("]" + rest)[1..] == rest;
      ItemStep(Encode(items[0]) + ("]" + rest), acc, items[0], "]" + rest);
      assert acc + [items[0]] == acc + items;
    } else {
      var tail := "," + EncodeItems(items[1..]) + "]" + rest;
      assert EncodeItems(items) + "]" + rest == Encode(items[0]) + tail;
      assert Ends(tail);
      ItemStep(Encode(items[0]) + tail, acc, items[0], tail);
      assert tail[1..] == EncodeItems(items[1..]) + "]" + rest;
      ItemsParse(items[1..], rest, acc + [items[0]]);
      assert acc + [items[0]] + items[1..] == acc + items;
    }
  }

  // ----- Objects, with members in any order -----

  type Member = (string, Value)

  function EncodePair(p: Member): string {
    EncodeString(p.0) + ":" + Encode(p.1)
  }

  function EncodePairs(ps: seq<Member>): string {
    if ps == [] then ""
    else if |ps| == 1 then EncodePair(ps[0])
    else EncodePair(ps[0]) + "," + EncodePairs(ps[1..])
  }

  /** `members` extended with the pairs, none of whose names may repeat. */
  function AddAll(members: map<string, Value>, ps: seq<Member>): Parsed<map<string, Value>>
    decreases |ps|
  {
    if ps == [] then Ok(members, "")
    else if ps[0].0 in members then Err(DuplicateKey)
    else AddAll(members[ps[0].0 := ps[0].1], ps[1..])
  }

  lemma MemberStep(s: string, name: string, after: string, v: Value, tail: string, members: map<string, Value>)
    requires s != "" && s[0] == '"' && ParseString(s[1..], "") == Ok(name, after)
    requires after != "" && after[0] == ':' && ParseValue(after[1..]) == Ok(v, tail)
    ensures ParseMember(s, members) == if name in members then Err(DuplicateKey) else Ok(members[name := v], tail)
  {
  }

  lemma MemberParses(p: Member, tail: string, members: map<string, Value>)
    requires RoundTrips(p.1) && tail != "" && (tail[0] == ',' || tail[0] == '}')
    ensures ParseMembers(EncodePair(p) + tail, members)
         == if p.0 in members then Err(DuplicateKey)
            else if tail[0] == ',' then ParseMembers(tail[1..], members[p.0 := p.1])
            else Ok(Obj(members[p.0 := p.1]), tail[1..])
  {
    hide ParseValue, ParseMember, ParseString, Encode, EncodeString;
    var s := EncodePair(p) + tail;
    var after := ":" + Encode(p.1) + tail;
    assert s == EncodeString(p.0) + after;
    EncodedStringParses(p.0, after);
    assert after[1..] == Encode(p.1) + tail;
    assert Ends(tail);
    MemberStep(s, p.0, after, p.1, tail, members);
  }

  /** Members in any order give the same object, and a repeated name is an error. */
  lemma {:induction false} PairsParse(ps: seq<Member>, rest: string, members: map<string, Value>)
    requires ps != [] && forall i :: 0 <= i < |ps| ==> RoundTrips(ps[i].1)
    ensures ParseMembers(EncodePairs(ps) + "}" + rest, members)
         == match AddAll(members, ps) case Ok(all, _) => Ok(Obj(all), rest) case Err(e) => Err(e)
  {
    hide ParseMembers, EncodePair, RoundTrips;
    if |ps| == 1 {
      assert EncodePairs(ps) + "}" + rest == EncodePair(ps[0]) + ("}" + rest);
      MemberParses(ps[0], "}" + rest, members);
      assert ("}" + rest)[1..] == rest;
      assert ps[1..] == [];
    } else {
      var tail := "," + EncodePairs(ps[1..]) + "}" + rest;
      assert EncodePairs(ps) + "}" + rest == EncodePair(ps[0]) + tail;
      MemberParses(ps[0], tail, members);
      assert tail[1..] == EncodePairs(ps[1..]) + "}" + rest;
      if ps[0].0 !in members {
        PairsParse(ps[1..], rest, members[ps[0].0 := ps[0].1]);
      }
    }
  }

  function PairsOf(members: map<string, Value>, names: seq<string>): (ps: seq<Member>)
    requires forall name :: name in names ==> name in members
    ensures |ps| == |names| && forall i :: 0 <= i < |ps| ==> ps[i] == (names[i], members[names[i]])
  {
    seq(|names|, i requires 0 <= i < |names| => (names[i], members[names[i]]))
  }

  lemma {:induction false} MembersArePairs(v: Value, names: seq<string>)
    requires v.Obj? && forall name :: name in names ==> name in v.members
    ensures EncodeMembers(v, names) == EncodePairs(PairsOf(v.members, names))
  {
    hide Encode, EncodeString;
    if names != [] {
      MembersArePairs(v, names[1..]);
      assert PairsOf(v.members, names)[1..] == PairsOf(v.members, names[1..]);
    }
  }

  lemma TailOfSorted(names: seq<string>)
    requires StrictlySorted(names) && names != []
    ensures StrictlySorted(names[1..]) && names[0] !in names[1..]
  {
    hide NameLess;
    if names[0] in names[1..] {
      NameOrderTotal(names[0], names[0]);
    }
  }

  lemma {:induction false} AddAllSorted(members: map<string, Value>, names: seq<string>, start: map<string, Value>)
    requires StrictlySorted(names)
    requires forall name :: name in names ==> name in members && name !in start
    requires forall name :: name in members <==> name in names || name in start
    requires forall name :: name in start ==> name in members && start[name] == members[name]
    ensures AddAll(start, PairsOf(members, names)) == Ok(members, "")
  {
    hide StrictlySorted;
    if names == [] {
      assert start == members;
    } else {
      var grown := start[names[0] := members[names[0]]];
      TailOfSorted(names);
      assert forall name :: name in names <==> name == names[0] || name in names[1..];
      AddAllSorted(members, names[1..], grown);
      assert PairsOf(members, names)[1..] == PairsOf(members, names[1..]);
    }
  }

  /** The first character picks the production. */
  lemma ValueStep(s: string)
    requires s != "" && !IsWs(s[0])
    ensures s[0] == '[' ==> ParseValue(s) == ParseArray(s[1..])
    ensures s[0] == '{' ==> ParseValue(s) == ParseObject(s[1..])
    ensures s[0] == '-' || IsDigit(s[0]) ==> ParseValue(s) == ParseNumber(s)
    ensures s[0] == '"' && ParseString(s[1..], "").Ok? ==>
              ParseValue(s) == Ok(Str(ParseString(s[1..], "").value), ParseString(s[1..], "").rest)
  {
    hide ParseArray, ParseObject, ParseNumber, ParseString;
  }

  lemma OpenArrayStep(s: string)
    requires s != "" && !IsWs(s[0])
    ensures s[0] == ']' ==> ParseArray(s) == Ok(Arr([]), s[1..])
    ensures s[0] != ']' ==> ParseArray(s) == ParseItems(s, [])
  {
    hide ParseItems;
  }

  lemma OpenObjectStep(s: string)
    requires s != "" && !IsWs(s[0])
    ensures s[0] == '}' ==> ParseObject(s) == Ok(Obj(map[]), s[1..])
    ensures s[0] != '}' ==> ParseObject(s) == ParseMembers(s, map[])
  {
    hide ParseMembers;
  }

  lemma ArrayParses(items: seq<Value>, rest: string)
    requires forall i :: 0 <= i < |items| ==> RoundTrips(items[i])
    ensures ParseArray(EncodeItems(items) + "]" + rest) == Ok(Arr(items), rest)
  {
    hide ParseArray, ParseItems, Encode, RoundTrips;
    var inner := EncodeItems(items) + "]" + rest;
    if items == [] {
      OpenArrayStep(inner);
      assert inner[1..] == rest;
    } else {
      ItemsParse(items, rest, []);
      EncodingStarts(items[0]);
      assert inner[0] == Encode(items[0])[0];
      OpenArrayStep(inner);
      assert [] + items == items;
    }
  }

  lemma PairsStart(ps: seq<Member>, rest: string)
    requires ps != []
    ensures EncodePairs(ps) + rest != "" && (EncodePairs(ps) + rest)[0] == '"'
  {
    hide Encode;
  }

  lemma ObjectParses(v: Value, rest: string)
    requires v.Obj? && forall name :: name in v.members ==> RoundTrips(v.members[name])
    ensures ParseObject(EncodeMembers(v, SortedNames(v.members.Keys)) + "}" + rest) == Ok(v, rest)
  {
    hide ParseObject, ParseMembers, EncodeMembers, EncodePairs, SortedNames, RoundTrips, NameLess, AddAll;
    var names := SortedNames(v.members.Keys);
    var ps := PairsOf(v.members, names);
    var inner := EncodePairs(ps) + "}" + rest;
    MembersArePairs(v, names);
    if names == [] {
      assert v.members == map[];
      NoPairs();
      OpenObjectStep(inner);
      assert inner[1..] == rest;
    } else {
      PairsParse(ps, rest, map[]);
      AddAllSorted(v.members, names, map[]);
      PairsStart(ps, "}" + rest);
      assert inner == EncodePairs(ps) + ("}" + rest);
      OpenObjectStep(inner);
    }
  }

  lemma NoPairs()
    ensures EncodePairs([]) == ""
  {
  }

  lemma LiteralParses(v: Value, rest: string)
    requires v.Null? || v.Bool?
    ensures ParseValue(Encode(v) + rest) == Ok(v, rest)
  {
    var token := Encode(v);
    assert token <= token + rest && (token + rest)[|token|..] == rest;
  }

  /** The text of a value, by its kind. */
  lemma EncodingOf(v: Value)
    ensures v.Str? ==> Encode(v) == EncodeString(v.text)
    ensures v.Num? ==> Encode(v) == EncodeNum(v.n)
    ensures v.Arr? ==> Encode(v) == "[" + EncodeItems(v.items) + "]"
    ensures v.Obj? ==> Encode(v) == "{" + EncodeMembers(v, SortedNames(v.members.Keys)) + "}"
  {
    hide EncodeString, EncodeNum, EncodeItems, EncodeMembers, SortedNames;
  }

  /** Parsing the canonical text of any value returns that value. */
  lemma {:induction false} ValueRoundTrips(v: Value)
    ensures RoundTrips(v)
    decreases v
  {
    if v.Arr? {
      forall i | 0 <= i < |v.items| ensures RoundTrips(v.items[i]) {
        ValueRoundTrips(v.items[i]);
      }
    } else if v.Obj? {
      forall name | name in v.members ensures RoundTrips(v.members[name]) {
        ValueRoundTrips(v.members[name]);
      }
    }
    forall rest | Ends(rest) ensures ParseValue(Encode(v) + rest) == Ok(v, rest) {
      CanonicalValueParses(v, rest);
    }
  }

  lemma CanonicalValueParses(v: Value, rest: string)
    requires Ends(rest)
    requires v.Arr? ==> forall i :: 0 <= i < |v.items| ==> RoundTrips(v.items[i])
    requires v.Obj? ==> forall name :: name in v.members ==> RoundTrips(v.members[name])
    ensures ParseValue(Encode(v) + rest) == Ok(v, rest)
  {
    hide ParseValue, ParseArray, ParseObject, ParseNumber, ParseString;
    hide Encode, EncodeString, EncodeNum, EncodeItems, EncodeMembers, SortedNames, RoundTrips;
    var s := Encode(v) + rest;
    EncodingStarts(v);
    EncodingOf(v);
    ValueStep(s);
    match v
    case Null => LiteralParses(v, rest);
    case Bool(b) => LiteralParses(v, rest);
    case Str(text) => EncodedStringParses(text, rest);
    case Num(n) => EncodedNumParses(n, rest);
    case Arr(items) =>
      assert s[1..] == EncodeItems(items) + "]" + rest;
      ArrayParses(items, rest);
    case Obj(members) =>
      assert s[1..] == EncodeMembers(v, SortedNames(members.Keys)) + "}" + rest;
      ObjectParses(v, rest);
  }

  /** `parse_strict(encode_unique(v))` is `v`. */
  lemma CanonicalTextParses(v: Value)
    ensures ParseStrict(Encode(v)) == Ok(v, "")
  {
    ValueRoundTrips(v);
    assert Encode(v) + "" == Encode(v);
    assert ParseValue(Encode(v) + "") == Ok(v, "");
  }

  /** Canonicalization is idempotent. */
  lemma CanonicalizeIdempotent(s: string)
    requires Canonicalize(s).Ok?
    ensures Canonicalize(Canonicalize(s).value) == Canonicalize(s)
  {
    CanonicalTextParses(ParseStrict(s).value);
  }

  /** Two accepted texts have equal canonical forms exactly when they denote
      equal values, whatever their member order and white space. */
  lemma CanonicalFormDecidesEquality(s: string, t: string)
    requires ParseStrict(s).Ok? && ParseStrict(t).Ok?
    ensures Canonicalize(s) == Canonicalize(t) <==> ParseStrict(s).value == ParseStrict(t).value
  {
    CanonicalTextParses(ParseStrict(s).value);
    CanonicalTextParses(ParseStrict(t).value);
  }

  /** An object written with its members in any order is accepted exactly when
      no name repeats, and then only the set of members matters. */
  lemma MemberOrderIrrelevant(ps: seq<Member>)
    requires ps != []
    ensures ParseStrict("{" + EncodePairs(ps) + "}")
         == match AddAll(map[], ps) case Ok(all, _) => Ok(Obj(all), "") case Err(e) => Err(e)
    ensures AddAll(map[], ps).Ok? <==> forall i, j :: 0 <= i < j < |ps| ==> ps[i].0 != ps[j].0
  {
    hide ParseValue, ParseObject, ParseMembers, EncodePairs, RoundTrips, AddAll;
    forall i | 0 <= i < |ps| ensures RoundTrips(ps[i].1) {
      ValueRoundTrips(ps[i].1);
    }
    var s := "{" + EncodePairs(ps) + "}";
    PairsParse(ps, "", map[]);
    PairsStart(ps, "}" + "");
    ValueStep(s);
    assert s[1..] == EncodePairs(ps) + ("}" + "") == EncodePairs(ps) + "}" + "";
    OpenObjectStep(s[1..]);
    AddAllDistinct(map[], ps);
  }

  lemma {:induction false} AddAllDistinct(members: map<string, Value>, ps: seq<Member>)
    ensures AddAll(members, ps).Ok?
       <==> ((forall i :: 0 <= i < |ps| ==> ps[i].0 !in members)
             && (forall i, j :: 0 <= i < j < |ps| ==> ps[i].0 != ps[j].0))
    decreases |ps|
  {
    if ps != [] && ps[0].0 !in members {
      var grown := members[ps[0].0 := ps[0].1];
      AddAllDistinct(grown, ps[1..]);
      assert forall i :: 1 <= i < |ps| ==> ps[i] == ps[1..][i - 1];
      if AddAll(members, ps).Ok? {
        forall i, j | 0 <= i < j < |ps| ensures ps[i].0 != ps[j].0 {
          assert ps[j] == ps[1..][j - 1];
          if i > 0 {
            assert ps[i] == ps[1..][i - 1];
          }
        }
      }
    }
  }

  /** The UTF-16 order is not the order of scalar values: U+E000 sorts after
      U+1F600 although its scalar value is smaller. */
  lemma Utf16OrderIsNotScalarOrder()
    ensures NameLess("\U{1F600}", "\U{E000}") && '\U{E000}' < '\U{1F600}'
  {
    assert Utf16("\U{1F600}") == [0xD83D, 0xDE00];
    assert Utf16("\U{E000}") == [0xE000];
  }
}
