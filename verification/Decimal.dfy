/** Unsigned decimal text: the printer behind Rust's `{}` for integers and the
    value its `parse` reads back. */
module Decimal {
  predicate IsDigit(c: char) {
    '0' <= c <= '9'
  }

  function DigitValue(c: char): (d: nat)
    requires IsDigit(c)
    ensures d < 10
  {
    c as int - '0' as int
  }

  function DigitChar(d: nat): (c: char)
    requires d < 10
    ensures IsDigit(c) && DigitValue(c) == d
  {
    (d + '0' as int) as char
  }

  predicate AllDigits(s: string) {
    forall i :: 0 <= i < |s| ==> IsDigit(s[i])
  }

  /** Digits of `n`, most significant first, without leading zeros. */
  function Print(n: nat): (s: string)
    ensures s != "" && AllDigits(s)
    ensures s[0] == '0' ==> n == 0 && s == "0"
  {
    if n < 10 then [DigitChar(n)] else Print(n / 10) + [DigitChar(n % 10)]
  }

  function Read(s: string): nat
    requires AllDigits(s)
  {
    if s == "" then 0 else 10 * Read(s[..|s| - 1]) + DigitValue(s[|s| - 1])
  }

  lemma {:induction false} ReadOfPrint(n: nat)
    ensures Read(Print(n)) == n
  {
    if n >= 10 {
      ReadOfPrint(n / 10);
      var s := Print(n);
      assert s[..|s| - 1] == Print(n / 10);
    }
  }

  /** Digits without a leading zero are what their value prints as. */
  lemma {:induction false} PrintOfRead(s: string)
    requires s != "" && AllDigits(s) && (s[0] == '0' ==> |s| == 1)
    ensures Print(Read(s)) == s
    ensures |s| > 1 ==> Read(s) >= 10
  {
    var init, last := s[..|s| - 1], s[|s| - 1];
    assert s == init + [last];
    if |s| > 1 {
      PrintOfRead(init);
    } else {
      assert Read(init) == 0;
    }
    assert DigitChar(DigitValue(last)) == last;
  }

  /** The length of the run of digits that starts `s`. */
  function Run(s: string): (k: nat)
    ensures k <= |s| && AllDigits(s[..k])
    ensures k < |s| ==> !IsDigit(s[k])
  {
    if s == "" || !IsDigit(s[0]) then 0
    else
      var k := 1 + Run(s[1..]);
      assert forall i :: 1 <= i < k ==> s[i] == s[1..][..k - 1][i - 1];
      k
  }

  lemma {:induction false} RunOfDigits(s: string, rest: string)
    requires AllDigits(s) && (rest == "" || !IsDigit(rest[0]))
    ensures Run(s + rest) == |s|
  {
    if s == "" {
      assert s + rest == rest;
    } else {
      assert (s + rest)[1..] == s[1..] + rest;
      RunOfDigits(s[1..], rest);
    }
  }
}
