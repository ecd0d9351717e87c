/** Timestamp text of `rfc3339.rs`: the strict reader, the UTC printer, and how
    far the one undoes the other. */
module Rfc3339 {
  import opened Wrappers
  import opened Decimal

  /** A point in time as it is written: calendar, clock, and offset from UTC. */
  datatype Fields = Fields(year: nat, month: nat, day: nat, hour: nat, minute: nat, second: nat, nanosecond: nat,
                           offset: int)

  predicate Leap(year: nat) {
    year % 4 == 0 && (year % 100 != 0 || year % 400 == 0)
  }

  function DaysIn(year: nat, month: nat): nat {
    if month == 2 then if Leap(year) then 29 else 28
    else if month in {4, 6, 9, 11} then 30
    else 31
  }

  predicate OnCalendar(f: Fields) {
    && 1 <= f.month <= 12 && 1 <= f.day <= DaysIn(f.year, f.month)
    && f.hour <= 23 && f.minute <= 59 && f.second <= 59
  }

  // ----- Reading -----

  /** `parse_n_digits`. */
  method ParseDigits(slice: string, n: nat) returns (value: Option<nat>)
    ensures value == if |slice| == n && AllDigits(slice) then Some(Read(slice)) else None
  {
    if |slice| != n {
      return None;
    }
    var total, i := 0, 0;
    while i < |slice|
      invariant i <= |slice| && AllDigits(slice[..i]) && total == Read(slice[..i])
    {
      if !IsDigit(slice[i]) {
        return None;
      }
      assert slice[..i + 1][..i] == slice[..i];
      total := total * 10 + DigitValue(slice[i]);
      i := i + 1;
    }
    assert slice[..i] == slice;
    return Some(total);
  }

  /** Digits and separators of `YYYY-MM-DDTHH:MM:SS`, with something after them. */
  predicate DateTimeShaped(t: string) {
    && |t| >= 20
    && AllDigits(t[..4]) && t[4] == '-' && AllDigits(t[5..7]) && t[7] == '-' && AllDigits(t[8..10])
    && (t[10] == 'T' || t[10] == 't')
    && AllDigits(t[11..13]) && t[13] == ':' && AllDigits(t[14..16]) && t[16] == ':' && AllDigits(t[17..19])
  }

  /** The fraction cut to six digits, or filled up to six. */
  function SixDigits(digits: string): (r: string)
    requires AllDigits(digits)
    ensures |r| == 6 && AllDigits(r)
    decreases 6 - |digits|
  {
    if |digits| >= 6 then digits[..6] else SixDigits(digits + "0")
  }

  /** Nanoseconds of a fraction at the start of `rest`, and where the offset begins. */
  function Fraction(rest: string): Option<(nat, nat)> {
    if rest == "" || rest[0] != '.' then Some((0, 0))
    else
      var k := Run(rest[1..]);
      if k == 0 then None else Some((Read(SixDigits(rest[1..][..k])) * 1000, k + 1))
  }

  /** `Z`, or a signed offset in minutes. */
  function Offset(rest: string): Option<int> {
    if rest == "Z" || rest == "z" then Some(0)
    else if |rest| == 6 && (rest[0] == '+' || rest[0] == '-') && AllDigits(rest[1..3]) && rest[3] == ':'
            && AllDigits(rest[4..6])
         && Read(rest[1..3]) <= 23 && Read(rest[4..6]) <= 59 then
      var minutes := Read(rest[1..3]) * 60 + Read(rest[4..6]);
      Some(if rest[0] == '+' then minutes else -minutes)
    else None
  }

  /** `parse_instant`, before the shift to UTC. */
  function ParseInstant(t: string): Option<Fields> {
    if !DateTimeShaped(t) then None
    else
      match Fraction(t[19..])
      case None => None
      case Some((nanosecond, used)) =>
        if 19 + used > |t| then None
        else
          match Offset(t[19 + used..])
          case None => None
          case Some(offset) =>
            var f := Fields(Read(t[..4]), Read(t[5..7]), Read(t[8..10]), Read(t[11..13]), Read(t[14..16]),
                            Read(t[17..19]),
                            nanosecond, offset);
            if OnCalendar(f) then Some(f) else None
  }

  // ----- Printing -----

  /** `{:0width}` of a number that fits. */
  function Fixed(n: nat, width: nat): (s: string)
    ensures |s| == width && AllDigits(s)
  {
    if width == 0 then "" else Fixed(n / 10, width - 1) + [DigitChar(n % 10)]
  }

  function Pow10(k: nat): nat {
    if k == 0 then 1 else 10 * Pow10(k - 1)
  }

  lemma {:induction false} ReadOfFixed(n: nat, width: nat)
    requires n < Pow10(width)
    ensures Read(Fixed(n, width)) == n
  {
    if width > 0 {
      ReadOfFixed(n / 10, width - 1);
      var s := Fixed(n, width);
      assert s[..|s| - 1] == Fixed(n / 10, width - 1);
    }
  }

  function DateTime(f: Fields): string {
    Fixed(f.year, 4) + "-" + Fixed(f.month, 2) + "-" + Fixed(f.day, 2) + "T"
    + Fixed(f.hour, 2) + ":" + Fixed(f.minute, 2) + ":" + Fixed(f.second, 2)
  }

  function Tail(f: Fields): string {
    if f.nanosecond == 0 then "Z" else "." + Fixed(f.nanosecond / 1000, 6) + "Z"
  }

  /** `format_utc`. */
  function FormatUtc(f: Fields): string {
    DateTime(f) + Tail(f)
  }

  // ----- Round trip -----

  lemma DateTimePlaces(f: Fields, tail: string)
    requires tail != ""
    ensures var t := DateTime(f) + tail;
            && DateTimeShaped(t) && t[19..] == tail
            && t[..4] == Fixed(f.year, 4) && t[5..7] == Fixed(f.month, 2) && t[8..10] == Fixed(f.day, 2)
            && t[11..13] == Fixed(f.hour, 2) && t[14..16] == Fixed(f.minute, 2) && t[17..19] == Fixed(f.second, 2)
  {
    hide Fixed;
    var t := DateTime(f) + tail;
    assert t[..4] == Fixed(f.year, 4);
    assert t[5..7] == Fixed(f.month, 2);
    assert t[8..10] == Fixed(f.day, 2);
    assert t[11..13] == Fixed(f.hour, 2);
    assert t[14..16] == Fixed(f.minute, 2);
    assert t[17..19] == Fixed(f.second, 2);
    assert t[19..] == tail;
  }

  lemma TailReads(f: Fields)
    requires f.nanosecond < 1_000_000_000
    ensures var fraction := Fraction(Tail(f));
            && fraction.Some? && fraction.value.0 == f.nanosecond / 1000 * 1000
            && fraction.value.1 <= |Tail(f)| && Offset(Tail(f)[fraction.value.1..]) == Some(0)
  {
    hide Fixed;
    if f.nanosecond != 0 {
      var digits := Fixed(f.nanosecond / 1000, 6);
      assert Tail(f)[1..] == digits + "Z";
      RunOfDigits(digits, "Z");
      assert (digits + "Z")[..6] == digits && digits[..6] == digits;
      assert Pow10(6) == 1_000_000 by {
        assert Pow10(3) == 1000;
      }
      ReadOfFixed(f.nanosecond / 1000, 6);
      assert Tail(f)[7..] == "Z";
    }
  }

  /** Reading back what was printed gives the instant with the digits below a
      microsecond dropped. */
  lemma FormattedReadsBack(f: Fields)
    requires OnCalendar(f) && f.year <= 9999 && f.nanosecond < 1_000_000_000 && f.offset == 0
    ensures ParseInstant(FormatUtc(f)) == Some(f.(nanosecond := f.nanosecond / 1000 * 1000))
  {
    hide Fixed, Fraction, Offset, DateTimeShaped;
    assert Tail(f) != "";
    DateTimePlaces(f, Tail(f));
    TailReads(f);
    assert Pow10(4) == 10000 && Pow10(2) == 100 by {
      assert Pow10(3) == 1000;
    }
    ReadOfFixed(f.year, 4);
    ReadOfFixed(f.month, 2);
    ReadOfFixed(f.day, 2);
    ReadOfFixed(f.hour, 2);
    ReadOfFixed(f.minute, 2);
    ReadOfFixed(f.second, 2);
    var t, used := FormatUtc(f), Fraction(Tail(f)).value.1;
    assert t[19..][used..] == t[19 + used..];
  }

  /** The round trip is exact if and only if the instant is a whole number of
      microseconds. */
  lemma RoundTripIff(f: Fields)
    requires OnCalendar(f) && f.year <= 9999 && f.nanosecond < 1_000_000_000 && f.offset == 0
    ensures ParseInstant(FormatUtc(f)) == Some(f) <==> f.nanosecond % 1000 == 0
  {
    hide ParseInstant, FormatUtc, OnCalendar;
    FormattedReadsBack(f);
  }

  /** One nanosecond past a second reads back as the second itself. */
  lemma NanosecondIsLost()
    ensures var f := Fields(2026, 8, 15, 17, 0, 0, 1, 0); ParseInstant(FormatUtc(f)) == Some(f.(nanosecond := 0))
  {
    hide FormatUtc, ParseInstant;
    FormattedReadsBack(Fields(2026, 8, 15, 17, 0, 0, 1, 0));
  }

  // ----- Fractions and offsets, however they are written -----

  lemma {:induction false} SixDigitsValue(digits: string)
    requires AllDigits(digits)
    ensures |digits| >= 6 ==> Read(SixDigits(digits)) == Read(digits[..6])
    ensures |digits| <= 6 ==> Read(SixDigits(digits)) == Read(digits) * Pow10(6 - |digits|)
    decreases 6 - |digits|
  {
    if |digits| < 6 {
      var longer := digits + "0";
      assert longer[..|longer| - 1] == digits;
      assert Read(longer) == 10 * Read(digits);
      SixDigitsValue(longer);
      TimesTen(Read(digits), 6 - |digits|);
    } else {
      assert |digits| == 6 ==> digits[..6] == digits;
    }
  }

  lemma TimesTen(n: nat, k: nat)
    requires k > 0
    ensures 10 * n * Pow10(k - 1) == n * Pow10(k)
  {
    var p := Pow10(k - 1);
    assert 10 * n * p == n * (10 * p);
  }

  lemma FractionUnfolds(t: string, digits: string)
    requires t != "" && t[0] == '.' && Run(t[1..]) > 0 && digits == t[1..][..Run(t[1..])]
    ensures Fraction(t) == Some((Read(SixDigits(digits)) * 1000, |digits| + 1))
  {
    hide Read, SixDigits, Run;
  }

  lemma FractionReads(digits: string, rest: string)
    requires digits != "" && AllDigits(digits) && (rest == "" || !IsDigit(rest[0]))
    ensures Fraction("." + digits + rest) == Some((Read(SixDigits(digits)) * 1000, |digits| + 1))
  {
    hide *;
    var t := "." + digits + rest;
    RunOfDigits(digits, rest);
    assert t[1..] == digits + rest;
    assert (digits + rest)[..|digits|] == digits;
    FractionUnfolds(t, digits);
  }

  /** A fraction of up to six digits counts with its value; further digits are dropped. */
  lemma FractionValue(digits: string, rest: string)
    requires digits != "" && AllDigits(digits) && (rest == "" || !IsDigit(rest[0]))
    ensures var micros := if |digits| <= 6 then Read(digits) * Pow10(6 - |digits|) else Read(digits[..6]);
            Fraction("." + digits + rest) == Some((micros * 1000, |digits| + 1))
  {
    hide *;
    FractionReads(digits, rest);
    SixDigitsValue(digits);
  }

  lemma FixedOfDigit(n: nat, d: nat, width: nat)
    requires d < 10
    ensures Fixed(10 * n + d, width + 1) == Fixed(n, width) + [DigitChar(d)]
  {
    assert (10 * n + d) / 10 == n && (10 * n + d) % 10 == d;
  }

  lemma LastDigit(s: string)
    requires s != "" && AllDigits(s)
    ensures AllDigits(s[..|s| - 1]) && IsDigit(s[|s| - 1])
    ensures s == s[..|s| - 1] + [DigitChar(DigitValue(s[|s| - 1]))]
  {
    var last := s[|s| - 1];
    assert IsDigit(last) && DigitChar(DigitValue(last)) == last;
  }

  lemma ReadUnfolds(s: string)
    requires s != "" && AllDigits(s) && AllDigits(s[..|s| - 1]) && IsDigit(s[|s| - 1])
    ensures Read(s) == 10 * Read(s[..|s| - 1]) + DigitValue(s[|s| - 1])
  {
    hide AllDigits;
  }

  lemma {:induction false} FixedOfRead(s: string)
    requires AllDigits(s)
    ensures Fixed(Read(s), |s|) == s
  {
    if s != "" {
      LastDigit(s);
      ReadUnfolds(s);
      hide Fixed, Read, AllDigits;
      FixedOfRead(s[..|s| - 1]);
      FixedOfDigit(Read(s[..|s| - 1]), DigitValue(s[|s| - 1]), |s| - 1);
    }
  }

  /** Hours and minutes as they are written after the sign. */
  function HoursMinutes(hours: nat, minutes: nat): (s: string)
    ensures |s| == 5
  {
    Fixed(hours, 2) + ":" + Fixed(minutes, 2)
  }

  /** A sign, hours below 24 and minutes below 60, which count below zero after a
      minus sign. */
  predicate SignedOffset(rest: string, hours: nat, minutes: nat, offset: int) {
    && hours <= 23 && minutes <= 59
    && (|| (rest == "+" + HoursMinutes(hours, minutes) && offset == hours * 60 + minutes)
        || (rest == "-" + HoursMinutes(hours, minutes) && offset == -(hours * 60 + minutes)))
  }

  lemma OffsetReads(hours: nat, minutes: nat, sign: char)
    requires hours <= 23 && minutes <= 59 && (sign == '+' || sign == '-')
    ensures Offset([sign] + HoursMinutes(hours, minutes)) ==
              Some(if sign == '+' then hours * 60 + minutes else -(hours * 60 + minutes))
  {
    hide Fixed, Read;
    var t := [sign] + HoursMinutes(hours, minutes);
    assert t[1..3] == Fixed(hours, 2) && t[3] == ':' && t[4..6] == Fixed(minutes, 2);
    assert Pow10(2) == 100;
    ReadOfFixed(hours, 2);
    ReadOfFixed(minutes, 2);
  }

  lemma OffsetSound(rest: string)
    requires Offset(rest).Some? && rest != "Z" && rest != "z"
    ensures exists hours: nat, minutes: nat :: SignedOffset(rest, hours, minutes, Offset(rest).value)
  {
    hide Read, Fixed;
    var hours, minutes := Read(rest[1..3]), Read(rest[4..6]);
    FixedOfRead(rest[1..3]);
    FixedOfRead(rest[4..6]);
    assert rest == [rest[0]] + HoursMinutes(hours, minutes);
    assert SignedOffset(rest, hours, minutes, Offset(rest).value);
  }

  /** The offsets that are read, and their minutes. */
  lemma OffsetIff(rest: string, offset: int)
    ensures Offset(rest) == Some(offset)
       <==> ((rest == "Z" || rest == "z") && offset == 0)
            || exists hours: nat, minutes: nat :: SignedOffset(rest, hours, minutes, offset)
  {
    if Offset(rest) == Some(offset) && rest != "Z" && rest != "z" {
      OffsetSound(rest);
    }
    forall hours: nat, minutes: nat | SignedOffset(rest, hours, minutes, offset) ensures Offset(rest) == Some(offset) {
      OffsetReads(hours, minutes, rest[0]);
      assert rest == [rest[0]] + HoursMinutes(hours, minutes);
    }
    hide SignedOffset;
  }

  // ----- The reader as it runs -----

  method ScanFraction(t: string, from: nat) returns (digits: string, idx: nat)
    requires from <= |t|
    ensures idx == from + Run(t[from..]) && digits == t[from..idx]
  {
    idx := from;
    while idx < |t| && IsDigit(t[idx])
      invariant from <= idx <= |t|
      invariant Run(t[from..]) == idx - from + Run(t[idx..])
      decreases |t| - idx
    {
      assert t[idx..][1..] == t[idx + 1..];
      idx := idx + 1;
    }
    digits := t[from..idx];
  }

  method PadOrTruncate(digits: string) returns (padded: string)
    requires AllDigits(digits)
    ensures padded == SixDigits(digits)
  {
    padded := digits;
    while |padded| < 6
      invariant AllDigits(padded) && SixDigits(padded) == SixDigits(digits)
      decreases 6 - |padded|
    {
      padded := padded + "0";
    }
    if |padded| > 6 {
      padded := padded[..6];
    }
    assert |padded| == 6 ==> padded[..6] == padded;
  }

  method ReadInstant(t: string) returns (r: Option<Fields>)
    ensures r == ParseInstant(t)
  {
    hide Run, SixDigits, Offset, OnCalendar, Read;
    if |t| < 20 {
      return None;
    }
    var year := ParseDigits(t[..4], 4);
    var month := ParseDigits(t[5..7], 2);
    var day := ParseDigits(t[8..10], 2);
    var hour := ParseDigits(t[11..13], 2);
    var minute := ParseDigits(t[14..16], 2);
    var second := ParseDigits(t[17..19], 2);
    if year.None? || t[4] != '-' || month.None? || t[7] != '-' || day.None? || (t[10] != 'T' && t[10] != 't')
       || hour.None? || t[13] != ':' || minute.None? || t[16] != ':' || second.None?
    {
      return None;
    }
    var idx, nanosecond := 19, 0;
    if t[idx] == '.' {
      assert t[19..][1..] == t[20..];
      var digits;
      digits, idx := ScanFraction(t, 20);
      if digits == "" {
        return None;
      }
      assert t[20..][..idx - 20] == digits;
      var padded := PadOrTruncate(digits);
      var microsecond := ParseDigits(padded, 6);
      nanosecond := microsecond.value * 1000;
    }
    var offset := Offset(t[idx..]);
    if offset.None? {
      return None;
    }
    var f := Fields(year.value, month.value, day.value, hour.value, minute.value, second.value, nanosecond,
                    offset.value);
    return if OnCalendar(f) then Some(f) else None;
  }
}
