/** The canonical text is the shortest text of its value: with member names in
    UTF-16 order and lower-case digits this is what section 3.2 of RFC 8785
    asks of it, whichever way it is printed. */
module JcsCanonical {
  import opened Decimal
  import opened Jcs
  import opened JcsRoundTrip
  import opened JcsGrammar

  // ----- Characters -----

  /** No digit of a `\u` escape is an upper-case letter. */
  predicate LowerCase(e: string) {
    |e| >= 6 ==> forall i :: 0 <= i < |e| ==> !('A' <= e[i] <= 'F')
  }

  lemma ShortValues(c: char)
    ensures c in SHORT.Values <==> c in ['"', '\\', '/', 8 as char, 12 as char, '\n', '\r', '\t']
  {
    assert SHORT['"'] == '"' && SHORT['\\'] == '\\' && SHORT['/'] == '/' && SHORT['b'] as int == 8;
    assert SHORT['f'] as int == 12 && SHORT['n'] == '\n' && SHORT['r'] == '\r' && SHORT['t'] == '\t';
  }

  lemma HexCharSpells(d: nat)
    requires d < 16
    ensures SpellsHex(HexChar(d), d) && !('A' <= HexChar(d) <= 'F')
  {
  }

  lemma ControlSpells(c: char)
    requires c as int < 0x20
    ensures var e := "\\u00" + [HexChar(c as int / 16), HexChar(c as int % 16)];
            SpellsUnits(e, c) && LowerCase(e)
  {
    hide SpellsHex, HexChar;
    var n := c as int;
    HexCharSpells(0);
    HexCharSpells(n / 16);
    HexCharSpells(n % 16);
    var e := "\\u00" + [HexChar(n / 16), HexChar(n % 16)];
    assert e[..2] == "\\u" && e[2..6] == ['0', '0', HexChar(n / 16), HexChar(n % 16)];
    assert HexChar(0) == '0' by {
      ZeroDigit();
    }
  }

  lemma ZeroDigit()
    ensures HexChar(0) == '0'
  {
  }

  lemma EscapeSpells(c: char)
    ensures SpellsChar(EscapeChar(c), c) && LowerCase(EscapeChar(c))
    ensures |EscapeChar(c)| > 2 <==> c as int < 0x20 && c !in SHORT.Values
  {
    ShortValues(c);
    if c as int < 0x20 {
      ControlSpells(c);
    }
    hide SpellsUnits, HexChar;
  }

  lemma LowerUnit(h: string, g: string, u: nat)
    requires SpellsUnit(h, u) && SpellsUnit(g, u)
    requires forall i :: 0 <= i < 4 ==> !('A' <= h[i] <= 'F') && !('A' <= g[i] <= 'F')
    ensures h == g
  {
    forall i | 0 <= i < 4 ensures h[i] == g[i] {
      var d := if i == 0 then u / 0x1000 else if i == 1 then u / 0x100 % 16 else if i == 2 then u / 16 % 16 else u % 16;
      assert SpellsHex(h[i], d) && SpellsHex(g[i], d);
    }
  }

  lemma EscapeShortest(e: string, c: char)
    requires SpellsChar(e, c)
    ensures |EscapeChar(c)| <= |e|
    ensures |e| == |EscapeChar(c)| && LowerCase(e) ==> e == EscapeChar(c)
  {
    hide SpellsUnit, SpellsHex;
    EscapeSpells(c);
    var shortest := EscapeChar(c);
    if |e| == |shortest| == 6 && LowerCase(e) {
      LowerUnit(e[2..6], shortest[2..6], c as int);
      assert e == e[..2] + e[2..6] && shortest == shortest[..2] + shortest[2..6];
    }
  }

  /** The printed form of a character is its shortest spelling, in lower case:
      a `\u` escape only for a control character without a short one. */
  lemma EscapeIff(e: string, c: char)
    ensures e == EscapeChar(c)
       <==> SpellsChar(e, c) && LowerCase(e) && forall other | SpellsChar(other, c) :: |e| <= |other|
    ensures |EscapeChar(c)| > 2 <==> c as int < 0x20 && c !in SHORT.Values
  {
    hide SpellsChar, EscapeChar, LowerCase;
    EscapeSpells(c);
    forall other | SpellsChar(other, c) ensures |EscapeChar(c)| <= |other| {
      EscapeShortest(other, c);
    }
    if SpellsChar(e, c) {
      EscapeShortest(e, c);
    }
  }

  lemma {:induction false} TextShortest(b: string, text: string)
    requires SpellsText(b, text)
    ensures |Escape(text)| <= |b|
    decreases |text|
  {
    hide SpellsChar, EscapeChar;
    if text != "" {
      var k :| 0 <= k <= |b| && SpellsChar(b[..k], text[0]) && SpellsText(b[k..], text[1..]);
      EscapeShortest(b[..k], text[0]);
      TextShortest(b[k..], text[1..]);
    }
  }

  // ----- Numbers -----

  lemma IntShortest(t: string, n: int)
    requires SpellsInt(t, n)
    ensures |EncodeNum(n)| <= |t|
  {
    hide Read, Print;
    var digits := if t[0] == '-' then t[1..] else t;
    PrintOfRead(digits);
  }

  // ----- Objects -----

  /** The length of the members, each with a separator. */
  function Cost(v: Value, names: seq<string>): nat
    requires v.Obj? && forall name :: name in names ==> name in v.members
  {
    if names == [] then 0 else |EncodeMember(v, names[0])| + 1 + Cost(v, names[1..])
  }

  lemma {:induction false} CostIs(v: Value, names: seq<string>)
    requires v.Obj? && forall name :: name in names ==> name in v.members
    ensures Cost(v, names) == if names == [] then 0 else |EncodeMembers(v, names)| + 1
  {
    hide EncodeMember;
    if names != [] {
      CostIs(v, names[1..]);
    }
  }

  lemma {:induction false} CostWithout(v: Value, names: seq<string>, i: nat)
    requires v.Obj? && i < |names| && forall name :: name in names ==> name in v.members
    ensures Cost(v, names) == |EncodeMember(v, names[i])| + 1 + Cost(v, names[..i] + names[i + 1..])
  {
    hide EncodeMember;
    var fewer := names[..i] + names[i + 1..];
    if i == 0 {
      assert fewer == names[1..];
    } else {
      CostWithout(v, names[1..], i - 1);
      assert fewer[1..] == names[1..][..i - 1] + names[1..][i..];
    }
  }

  lemma {:induction false} CostOfOrder(v: Value, names: seq<string>, others: seq<string>, keys: set<string>)
    requires v.Obj? && Lists(names, keys) && Lists(others, keys)
    requires forall name :: name in keys ==> name in v.members
    ensures Cost(v, names) == Cost(v, others)
    decreases |names|
  {
    assert others != [] ==> others[0] in keys;
    if names == [] {
      assert others == [];
    } else {
      assert names[0] in others;
      var i :| 0 <= i < |others| && others[i] == names[0];
      var fewer := others[..i] + others[i + 1..];
      CostWithout(v, others, i);
      TailLists(names, keys);
      WithoutLists(others, keys, i);
      CostOfOrder(v, names[1..], fewer, keys - {names[0]});
    }
  }

  lemma TailLists(names: seq<string>, keys: set<string>)
    requires names != [] && Lists(names, keys)
    ensures Lists(names[1..], keys - {names[0]})
  {
    var tail := names[1..];
    assert forall i :: 0 <= i < |tail| ==> tail[i] == names[i + 1];
    forall name ensures name in tail <==> name in keys - {names[0]} {
      if name in keys && name != names[0] {
        var i :| 0 <= i < |names| && names[i] == name;
        assert tail[i - 1] == name;
      }
    }
  }

  lemma WithoutLists(names: seq<string>, keys: set<string>, i: nat)
    requires i < |names| && Lists(names, keys)
    ensures Lists(names[..i] + names[i + 1..], keys - {names[i]})
  {
    var fewer := names[..i] + names[i + 1..];
    assert forall j :: 0 <= j < |fewer| ==> fewer[j] == names[if j < i then j else j + 1];
    forall name ensures name in fewer <==> name in keys - {names[i]} {
      if name in keys && name != names[i] {
        var j :| 0 <= j < |names| && names[j] == name;
        assert fewer[if j < i then j else j - 1] == name;
      }
    }
  }

  lemma SortedLists(keys: set<string>)
    ensures Lists(SortedNames(keys), keys)
  {
    hide SortedNames, NameLess;
    var names := SortedNames(keys);
    forall i, j | 0 <= i < j < |names| ensures names[i] != names[j] {
      NameOrderTotal(names[i], names[j]);
    }
  }

  // ----- Values -----

  lemma {:induction false} TokenShortest(t: string, v: Value)
    requires Token(t, v)
    ensures |Encode(v)| <= |t|
    decreases v, 2
  {
    hide SpellsText, SpellsItems, SpellsMembers, Blank, EncodeItems, EncodeMembers, SortedNames, EncodeNum, Lists;
    match v
    case Null =>
    case Bool(b) =>
    case Str(text) => TextShortest(t[1..|t| - 1], text);
    case Num(n) => IntShortest(t, n);
    case Arr(items) => ItemsShortest(t[1..|t| - 1], items);
    case Obj(members) => MembersShortest(t[1..|t| - 1], v);
  }

  lemma {:induction false} SpelledShortest(t: string, v: Value)
    requires Spells(t, v)
    ensures |Encode(v)| <= |t|
    decreases v, 3
  {
    hide Token, Encode;
    var i, j := ValueSpan(t, v);
    TokenShortest(t[i..j], v);
  }

  lemma {:induction false} ItemsShortest(t: string, items: seq<Value>)
    requires items != [] ==> SpellsItems(t, items)
    ensures |EncodeItems(items)| <= |t|
    decreases items, 0
  {
    hide Spells, Encode;
    if |items| == 1 {
      SpelledShortest(t, items[0]);
    } else if items != [] {
      var k := FirstItem(t, items);
      SpelledShortest(t[..k], items[0]);
      ItemsShortest(t[k + 1..], items[1..]);
    }
  }

  lemma {:induction false} NamedShortest(t: string, v: Value, names: seq<string>)
    requires v.Obj? && (forall name :: name in names ==> name in v.members) && SpellsMembers(t, v, names)
    ensures |EncodeMembers(v, names)| <= |t|
    decreases v, 1, |names|
  {
    hide SpellsMember, EncodeMember;
    if |names| == 1 {
      MemberShortest(t, v, names[0]);
    } else {
      var k :| 0 <= k < |t| && t[k] == ',' && SpellsMember(t[..k], v, names[0])
               && SpellsMembers(t[k + 1..], v, names[1..]);
      MemberShortest(t[..k], v, names[0]);
      NamedShortest(t[k + 1..], v, names[1..]);
    }
  }

  lemma MemberShortest(t: string, v: Value, name: string)
    requires v.Obj? && name in v.members && SpellsMember(t, v, name)
    ensures |EncodeMember(v, name)| <= |t|
    decreases v, 0
  {
    hide Encode, Spells, SpellsName, Escape;
    var k :| 0 <= k < |t| && t[k] == ':' && SpellsName(t[..k], name) && Spells(t[k + 1..], v.members[name]);
    SpelledShortest(t[k + 1..], v.members[name]);
    NameShortest(t[..k], name);
  }

  lemma NameShortest(h: string, name: string)
    requires SpellsName(h, name)
    ensures |EncodeString(name)| <= |h|
  {
    hide SpellsText, Escape;
    var i, j := NameSpan(h, name);
    TextShortest(h[i..j][1..j - i - 1], name);
  }

  lemma MembersShortest(t: string, v: Value)
    requires v.Obj?
    requires v.members != map[] ==> exists names :: Lists(names, v.members.Keys) && SpellsMembers(t, v, names)
    ensures |EncodeMembers(v, SortedNames(v.members.Keys))| <= |t|
    decreases v, 1
  {
    hide SortedNames, EncodeMembers, SpellsMembers, Cost;
    if v.members == map[] {
      NoMembers(v);
    } else {
      var names :| Lists(names, v.members.Keys) && SpellsMembers(t, v, names);
      NamedShortest(t, v, names);
      SortedLists(v.members.Keys);
      CostIs(v, names);
      CostIs(v, SortedNames(v.members.Keys));
      CostOfOrder(v, names, SortedNames(v.members.Keys), v.members.Keys);
    }
  }

  lemma NoMembers(v: Value)
    requires v.Obj? && v.members == map[]
    ensures EncodeMembers(v, SortedNames(v.members.Keys)) == ""
  {
  }

  /** No text that is accepted as a value is shorter than its canonical form. */
  lemma CanonicalIsShortest(t: string, v: Value)
    requires ParseStrict(t) == Ok(v, "")
    ensures |Encode(v)| <= |t|
  {
    hide ParseStrict, Encode;
    StrictIff(t, v);
    SpelledShortest(t, v);
  }

  // ----- The order of members -----

  lemma {:induction false} EscapedSpells(text: string)
    ensures SpellsText(Escape(text), text)
  {
    hide SpellsChar, EscapeChar;
    if text != "" {
      EscapedSpells(text[1..]);
      EscapeSpells(text[0]);
      var b, k := Escape(text), |EscapeChar(text[0])|;
      assert b[..k] == EscapeChar(text[0]) && b[k..] == Escape(text[1..]);
    }
  }

  lemma EncodedNameSpells(name: string)
    ensures SpellsName(EncodeString(name), name)
  {
    hide SpellsText, Escape;
    var t := EncodeString(name);
    EscapedSpells(name);
    assert t[1..|t| - 1] == Escape(name);
    assert t[..0] == "" && t[0..|t|] == t && t[|t|..] == "";
    assert Blank("") && Quotes(t[0..|t|], name);
  }

  lemma EncodedMemberSpells(v: Value, name: string)
    requires v.Obj? && name in v.members
    ensures SpellsMember(EncodeMember(v, name), v, name)
  {
    hide Encode, EncodeString, Spells, SpellsName, ParseStrict;
    var t, k := EncodeMember(v, name), |EncodeString(name)|;
    EncodedNameSpells(name);
    CanonicalTextParses(v.members[name]);
    StrictIff(Encode(v.members[name]), v.members[name]);
    assert t[..k] == EncodeString(name) && t[k] == ':' && t[k + 1..] == Encode(v.members[name]);
  }

  lemma {:induction false} EncodedMembersSpell(v: Value, names: seq<string>)
    requires v.Obj? && names != [] && forall name :: name in names ==> name in v.members
    ensures SpellsMembers(EncodeMembers(v, names), v, names)
  {
    hide EncodeMember, SpellsMember;
    EncodedMemberSpells(v, names[0]);
    if |names| > 1 {
      EncodedMembersSpell(v, names[1..]);
      var t, k := EncodeMembers(v, names), |EncodeMember(v, names[0])|;
      assert t[..k] == EncodeMember(v, names[0]) && t[k] == ',' && t[k + 1..] == EncodeMembers(v, names[1..]);
    }
  }

  /** The canonical text of an object has its members in UTF-16 order of their
      names. */
  lemma CanonicalOrder(v: Value)
    requires v.Obj? && v.members != map[]
    ensures |Encode(v)| >= 2
    ensures exists names :: StrictlySorted(names) && Lists(names, v.members.Keys)
                            && SpellsMembers(Encode(v)[1..|Encode(v)| - 1], v, names)
  {
    hide EncodeMembers, SpellsMembers, SortedNames, StrictlySorted;
    var names := SortedNames(v.members.Keys);
    SortedLists(v.members.Keys);
    var some :| some in v.members;
    assert some in names;
    EncodedMembersSpell(v, names);
    assert Encode(v)[1..|Encode(v)| - 1] == EncodeMembers(v, names);
  }
}
