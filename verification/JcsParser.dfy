/** The parser and the printer of `jcs.rs` as they run: a cursor moving over the
    text, and an output string that grows. Each method is proved against the
    function of `Jcs` for the same production. */
module JcsParser {
  import opened Wrappers
  import opened Decimal
  import opened Jcs

  /** The outcome `r`, with `rest` still to be read, is what `p` says. */
  ghost predicate Agrees<T>(r: Result<T, Error>, rest: string, p: Parsed<T>) {
    match p
    case Ok(v, u) => r == Success(v) && rest == u
    case Err(e) => r == Failure(e)
  }

  class Parser {
    const text: string
    var pos: nat

    constructor (text: string)
      ensures this.text == text && pos == 0 && Valid()
    {
      this.text := text;
      pos := 0;
    }

    ghost predicate Valid()
      reads this
    {
      pos <= |text|
    }

    ghost function Rest(): string
      requires Valid()
      reads this
    {
      text[pos..]
    }

    function Peek(): (c: Option<char>)
      requires Valid()
      reads this
      ensures c == if Rest() == "" then None else Some(Rest()[0])
    {
      if pos < |text| then Some(text[pos]) else None
    }

    method Advance(n: nat)
      requires Valid() && pos + n <= |text|
      modifies this
      ensures Valid() && pos == old(pos) + n && Rest() == old(Rest())[n..]
    {
      pos := pos + n;
    }

    method Next() returns (c: Option<char>)
      requires Valid()
      modifies this
      ensures Valid() && c == old(Peek())
      ensures Rest() == if old(Rest()) == "" then "" else old(Rest())[1..]
    {
      c := Peek();
      if c.Some? {
        Advance(1);
      }
    }

    method SkipWhite()
      requires Valid()
      modifies this
      ensures Valid() && old(pos) <= pos && Rest() == SkipWs(old(Rest()))
    {
      while Peek().Some? && IsWs(Peek().value)
        invariant Valid() && old(pos) <= pos
        invariant SkipWs(Rest()) == SkipWs(old(Rest()))
        decreases |text| - pos
      {
        Advance(1);
      }
    }

    method ReadDigits() returns (k: nat)
      requires Valid()
      modifies this
      ensures Valid() && pos == old(pos) + k
      ensures k == Run(old(Rest())) && Rest() == old(Rest())[k..]
    {
      k := 0;
      while Peek().Some? && IsDigit(Peek().value)
        invariant Valid() && pos == old(pos) + k && Rest() == old(Rest())[k..]
        invariant k + Run(Rest()) == Run(old(Rest()))
        decreases |text| - pos
      {
        Advance(1);
        k := k + 1;
      }
    }

    method ReadHexDigits() returns (r: Result<nat, Error>)
      requires Valid()
      modifies this
      ensures Valid() && Agrees(r, Rest(), ReadHex4(old(Rest())))
    {
      var value := 0;
      ghost var s := Rest();
      var i := 0;
      while i < 4
        invariant Valid() && i <= 4 && i <= |s| && Rest() == s[i..]
        invariant forall j :: 0 <= j < i ==> HexDigit(s[j]) >= 0
        invariant i == 0 ==> value == 0
        invariant i == 1 ==> value == HexDigit(s[0])
        invariant i == 2 ==> value == HexDigit(s[0]) * 16 + HexDigit(s[1])
        invariant i == 3 ==> value == (HexDigit(s[0]) * 16 + HexDigit(s[1])) * 16 + HexDigit(s[2])
        invariant i == 4 ==>
                    value == ((HexDigit(s[0]) * 16 + HexDigit(s[1])) * 16 + HexDigit(s[2])) * 16 + HexDigit(s[3])
      {
        var c := Next();
        if c.None? || HexDigit(c.value) < 0 {
          return Failure(InvalidJson);
        }
        value := value * 16 + HexDigit(c.value);
        i := i + 1;
      }
      return Success(value);
    }

    method ReadUnicodeEscape() returns (r: Result<char, Error>)
      requires Valid()
      modifies this
      ensures Valid() && Agrees(r, Rest(), ParseUnicodeEscape(old(Rest())))
    {
      hide ReadHex4, HexDigit;
      var high := ReadHexDigits();
      if high.Failure? {
        return Failure(high.error);
      }
      var unit := high.value;
      if 0xD800 <= unit <= 0xDBFF {
        if Peek() != Some('\\') {
          return Failure(LoneSurrogate);
        }
        Advance(1);
        var u := Next();
        if u != Some('u') {
          return Failure(LoneSurrogate);
        }
        var low := ReadHexDigits();
        if low.Failure? {
          return Failure(low.error);
        }
        if !(0xDC00 <= low.value <= 0xDFFF) {
          return Failure(LoneSurrogate);
        }
        return Success((0x10000 + (unit - 0xD800) * 0x400 + (low.value - 0xDC00)) as char);
      }
      if 0xDC00 <= unit <= 0xDFFF {
        return Failure(LoneSurrogate);
      }
      return Success(unit as char);
    }

    /** Stands at the opening quote. */
    method ReadString() returns (r: Result<string, Error>)
      requires Valid() && Peek() == Some('"')
      modifies this
      ensures Valid() && Agrees(r, Rest(), ParseString(old(Rest())[1..], ""))
    {
      Advance(1);
      var out := "";
      while true
        invariant Valid() && ParseString(Rest(), out) == ParseString(old(Rest())[1..], "")
        decreases |text| - pos
      {
        ghost var before := Rest();
        var c := Next();
        if c.None? {
          return Failure(InvalidJson);
        } else if c.value == '"' {
          return Success(out);
        } else if c.value == '\\' {
          var e := Next();
          if e.None? {
            return Failure(InvalidJson);
          }
          assert Rest() == before[2..];
          if e.value == 'u' {
            var u := ReadUnicodeEscape();
            if u.Failure? {
              return Failure(u.error);
            }
            out := out + [u.value];
          } else if SimpleEscape(e.value) == "" {
            return Failure(InvalidJson);
          } else {
            out := out + SimpleEscape(e.value);
          }
        } else if c.value as int < 0x20 {
          return Failure(InvalidJson);
        } else {
          out := out + [c.value];
        }
      }
    }

    method ReadFraction() returns (r: Result<bool, Error>)
      requires Valid()
      modifies this
      ensures Valid() && Agrees(r, Rest(), ParseFraction(old(Rest())))
    {
      if Peek() != Some('.') {
        return Success(false);
      }
      Advance(1);
      var k := ReadDigits();
      return if k == 0 then Failure(InvalidJson) else Success(true);
    }

    method ReadExponent() returns (r: Result<bool, Error>)
      requires Valid()
      modifies this
      ensures Valid() && Agrees(r, Rest(), ParseExponent(old(Rest())))
    {
      if Peek() != Some('e') && Peek() != Some('E') {
        return Success(false);
      }
      Advance(1);
      if Peek() == Some('+') || Peek() == Some('-') {
        Advance(1);
        assert Rest() == old(Rest())[2..];
      }
      var k := ReadDigits();
      return if k == 0 then Failure(InvalidJson) else Success(true);
    }

    method ReadNumber() returns (r: Result<Value, Error>)
      requires Valid()
      modifies this
      ensures Valid() && Agrees(r, Rest(), ParseNumber(old(Rest())))
    {
      hide ParseFraction, ParseExponent, Run, Read;
      var negative := Peek() == Some('-');
      if negative {
        Advance(1);
      }
      var start := pos;
      ghost var t := Rest();
      var first := Peek();
      var k := ReadDigits();
      if k == 0 || (first == Some('0') && k > 1) {
        return Failure(InvalidJson);
      }
      var digits := text[start..pos];
      assert digits == t[..k];
      var fraction := ReadFraction();
      if fraction.Failure? {
        return Failure(fraction.error);
      }
      var exponent := ReadExponent();
      if exponent.Failure? {
        return Failure(exponent.error);
      }
      if fraction.value || exponent.value {
        return Failure(NumberOutsideModel);
      }
      var n: int := Read(digits);
      n := if negative then -n else n;
      if n < -MAX_SAFE || MAX_SAFE < n {
        return Failure(NumberOutsideModel);
      }
      return Success(Num(n));
    }

    method ReadLiteral(token: string, v: Value) returns (r: Result<Value, Error>)
      requires Valid()
      modifies this
      ensures Valid() && Agrees(r, Rest(), ParseLiteral(old(Rest()), token, v))
    {
      if pos + |token| > |text| || text[pos..pos + |token|] != token {
        assert !(token <= Rest());
        return Failure(InvalidJson);
      }
      assert Rest()[..|token|] == token;
      Advance(|token|);
      return Success(v);
    }

    method ReadValue() returns (r: Result<Value, Error>)
      requires Valid()
      modifies this
      ensures Valid() && Agrees(r, Rest(), ParseValue(old(Rest())))
      decreases |text| - pos, 2
    {
      hide ParseArray, ParseObject, ParseNumber, ParseString, ParseLiteral;
      SkipWhite();
      var c := Peek();
      if c.None? {
        r := Failure(InvalidJson);
      } else if c.value == 'n' {
        r := ReadLiteral("null", Null);
      } else if c.value == 't' {
        r := ReadLiteral("true", Bool(true));
      } else if c.value == 'f' {
        r := ReadLiteral("false", Bool(false));
      } else if c.value == '"' {
        var s := ReadString();
        r := match s case Success(x) => Success(Str(x)) case Failure(e) => Failure(e);
      } else if c.value == '[' {
        r := ReadArray();
      } else if c.value == '{' {
        r := ReadObject();
      } else if c.value == '-' || IsDigit(c.value) {
        r := ReadNumber();
      } else {
        r := Failure(InvalidJson);
      }
    }

    /** Stands at the opening bracket. */
    method ReadArray() returns (r: Result<Value, Error>)
      requires Valid() && Peek() == Some('[')
      modifies this
      ensures Valid() && Agrees(r, Rest(), ParseArray(old(Rest())[1..]))
      decreases |text| - pos, 1
    {
      hide ParseValue;
      Advance(1);
      SkipWhite();
      var items: seq<Value> := [];
      if Peek() == Some(']') {
        Advance(1);
        return Success(Arr(items));
      }
      while true
        invariant Valid() && old(pos) < pos
        invariant ParseItems(Rest(), items) == ParseArray(old(Rest())[1..])
        decreases |text| - pos
      {
        var v := ReadValue();
        if v.Failure? {
          return Failure(v.error);
        }
        items := items + [v.value];
        SkipWhite();
        var c := Peek();
        if c == Some(',') {
          Advance(1);
        } else if c == Some(']') {
          Advance(1);
          return Success(Arr(items));
        } else {
          return Failure(InvalidJson);
        }
      }
    }

    method ReadMember(members: map<string, Value>) returns (r: Result<map<string, Value>, Error>)
      requires Valid()
      modifies this
      ensures Valid() && Agrees(r, Rest(), ParseMember(old(Rest()), members))
      decreases |text| - pos, 3
    {
      hide ParseValue, ParseString;
      SkipWhite();
      if Peek() != Some('"') {
        return Failure(InvalidJson);
      }
      var name := ReadString();
      if name.Failure? {
        return Failure(name.error);
      }
      if name.value in members {
        return Failure(DuplicateKey);
      }
      SkipWhite();
      if Peek() != Some(':') {
        return Failure(InvalidJson);
      }
      Advance(1);
      var v := ReadValue();
      if v.Failure? {
        return Failure(v.error);
      }
      return Success(members[name.value := v.value]);
    }

    /** Stands at the opening brace. */
    method ReadObject() returns (r: Result<Value, Error>)
      requires Valid() && Peek() == Some('{')
      modifies this
      ensures Valid() && Agrees(r, Rest(), ParseObject(old(Rest())[1..]))
      decreases |text| - pos, 1
    {
      hide ParseMember, ParseMembers, ParseObject, SkipWs;
      ObjectUnfolds(Rest()[1..]);
      Advance(1);
      SkipWhite();
      var members: map<string, Value> := map[];
      if Peek() == Some('}') {
        Advance(1);
        return Success(Obj(members));
      }
      while true
        invariant Valid() && old(pos) < pos
        invariant ParseMembers(Rest(), members) == ParseObject(old(Rest())[1..])
        decreases |text| - pos
      {
        MembersUnfold(Rest(), members);
        var grown := ReadMember(members);
        if grown.Failure? {
          return Failure(grown.error);
        }
        members := grown.value;
        SkipWhite();
        var c := Peek();
        if c == Some(',') {
          Advance(1);
        } else if c == Some('}') {
          Advance(1);
          return Success(Obj(members));
        } else {
          return Failure(InvalidJson);
        }
      }
    }
  }

  lemma ObjectUnfolds(s: string)
    ensures var t := SkipWs(s);
            ParseObject(s) == if t != "" && t[0] == '}' then Ok(Obj(map[]), t[1..]) else ParseMembers(t, map[])
  {
  }

  lemma MembersUnfold(s: string, members: map<string, Value>)
    ensures ParseMembers(s, members) ==
            var m := ParseMember(s, members);
            if m.Err? then Err(m.error)
            else
              var t := SkipWs(m.rest);
              if t == "" then Err(InvalidJson)
              else if t[0] == ',' then ParseMembers(t[1..], m.value)
              else if t[0] == '}' then Ok(Obj(m.value), t[1..])
              else Err(InvalidJson)
  {
    hide ParseMember, SkipWs;
  }

  /** Entry point for raw text. */
  method ReadStrict(raw: string) returns (r: Result<Value, Error>)
    ensures Agrees(r, "", ParseStrict(raw))
  {
    hide ParseValue;
    var parser := new Parser(raw);
    assert parser.Rest() == raw;
    r := parser.ReadValue();
    if r.Success? {
      parser.SkipWhite();
      if parser.pos != |raw| {
        r := Failure(InvalidJson);
      }
    }
  }

  /** The output string `encode` appends to. */
  class Output {
    var text: string

    constructor ()
      ensures text == ""
    {
      text := "";
    }

    method Push(s: string)
      modifies this
      ensures text == old(text) + s
    {
      text := text + s;
    }

    method PushString(s: string)
      modifies this
      ensures text == old(text) + EncodeString(s)
    {
      hide EscapeChar;
      Push("\"");
      var i := 0;
      while i < |s|
        invariant i <= |s|
        invariant text + Escape(s[i..]) == old(text) + "\"" + Escape(s)
      {
        assert s[i..][1..] == s[i + 1..];
        Push(EscapeChar(s[i]));
        i := i + 1;
      }
      assert s[i..] == "" && Escape("") == "";
      assert text == old(text) + "\"" + Escape(s);
      Push("\"");
      assert text == old(text) + ("\"" + Escape(s) + "\"");
    }

    method PushValue(v: Value)
      modifies this
      ensures text == old(text) + Encode(v)
      decreases v, 0
    {
      hide EncodeString, EncodeNum, EncodeItems, EncodeMembers, SortedNames;
      match v
      case Null => Push("null");
      case Bool(b) => Push(if b then "true" else "false");
      case Str(s) => PushString(s);
      case Num(n) => Push(EncodeNum(n));
      case Arr(items) =>
        Push("[");
        PushItems(items);
        Push("]");
      case Obj(members) =>
        Push("{");
        PushMembers(v, SortedNames(members.Keys));
        Push("}");
    }

    method PushItems(items: seq<Value>)
      modifies this
      ensures text == old(text) + EncodeItems(items)
      decreases items, 0
    {
      hide Encode;
      var i := 0;
      while i < |items|
        invariant i <= |items|
        invariant text + (if 0 < i < |items| then "," else "") + EncodeItems(items[i..]) ==
                    old(text) + EncodeItems(items)
      {
        ghost var before := text;
        assert items[i..][1..] == items[i + 1..];
        if i > 0 {
          Push(",");
        }
        PushValue(items[i]);
        i := i + 1;
        assert text == before + (if 1 < i then "," else "") + Encode(items[i - 1]);
      }
    }

    method PushMember(v: Value, name: string)
      requires v.Obj? && name in v.members
      modifies this
      ensures text == old(text) + EncodeMember(v, name)
      decreases v, 0, 0
    {
      hide Encode, EncodeString;
      PushString(name);
      Push(":");
      PushValue(v.members[name]);
      assert text == old(text) + (EncodeString(name) + ":" + Encode(v.members[name]));
    }

    method PushMembers(v: Value, names: seq<string>)
      requires v.Obj? && forall name :: name in names ==> name in v.members
      modifies this
      ensures text == old(text) + EncodeMembers(v, names)
      decreases v, 0, |names| + 1
    {
      hide EncodeMember;
      var i := 0;
      while i < |names|
        invariant i <= |names|
        invariant text + (if 0 < i < |names| then "," else "") + EncodeMembers(v, names[i..]) ==
                    old(text) + EncodeMembers(v, names)
      {
        ghost var before := text;
        assert names[i..][1..] == names[i + 1..];
        if i > 0 {
          Push(",");
        }
        PushMember(v, names[i]);
        i := i + 1;
        assert text == before + (if 1 < i then "," else "") + EncodeMember(v, names[i - 1]);
      }
    }
  }

  /** Parse with the strict rules, then print in canonical form. */
  method CanonicalizeText(raw: string) returns (r: Result<string, Error>)
    ensures Agrees(r, "", Canonicalize(raw))
  {
    hide Encode, ParseStrict;
    var parsed := ReadStrict(raw);
    if parsed.Failure? {
      return Failure(parsed.error);
    }
    var out := new Output();
    out.PushValue(parsed.value);
    assert out.text == Encode(parsed.value);
    return Success(out.text);
  }
}
