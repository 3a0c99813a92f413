/**
 Printing numbers: ulltoa and lltoa count the digits in a first loop and write them backwards in a second.
 */
module NumberText {
  import opened Options

  const WORDS: nat := 0x1_0000_0000_0000_0000

  // ---------- Dividing by the base ----------

  function Quot(n: nat, base: nat): nat
    requires base >= 2
  {
    n / base
  }

  function Rem(n: nat, base: nat): (r: nat)
    requires base >= 2
    ensures r < base
  {
    n % base
  }

  lemma QuotRem(n: nat, base: nat)
    requires base >= 2
    ensures n == Quot(n, base) * base + Rem(n, base)
  {
  }

  lemma QuotSmaller(n: nat, base: nat)
    requires base >= 2
    ensures n > 0 ==> Quot(n, base) < n
    ensures Quot(n, base) == 0 <==> n < base
    ensures n < base ==> Rem(n, base) == n
  {
    QuotRem(n, base);
    var q, r := Quot(n, base), Rem(n, base);
    hide Quot, Rem;
    if q > 0 {
      Twice(q, base);
    } else {
      assert q * base == 0;
    }
  }

  lemma Twice(q: nat, base: nat)
    requires base >= 2 && q > 0
    ensures q * base >= 2 * q && q * base >= base
  {
    assert q * base == q * 2 + q * (base - 2);
    assert q * base == base + (q - 1) * base;
  }

  // ---------- What the text means ----------

  function DigitChar(d: nat): char
    requires d < 36
  {
    if d < 10 then '0' + d as char else 'A' + (d - 10) as char
  }

  function DigitValue(c: char): Option<nat> {
    if '0' <= c <= '9' then Some((c - '0') as nat)
    else if 'A' <= c <= 'Z' then Some((c - 'A') as nat + 10) else None
  }

  /** Reading a numeral: None if a character is no digit of the base. */
  function Decode(text: string, base: nat): Option<nat> {
    if text == "" then Some(0)
    else
      match (Decode(text[..|text|-1], base), DigitValue(text[|text|-1]))
      case (Some(n), Some(d)) => if d < base then Some(n * base + d) else None
      case _ => None
  }

  function Numeral(n: nat, base: nat): string
    requires 2 <= base <= 36
    decreases n
  {
    hide Quot, Rem;
    QuotSmaller(n, base);
    (if n < base then "" else Numeral(Quot(n, base), base)) + [DigitChar(Rem(n, base))]
  }

  function DigitCount(n: nat, base: nat): nat
    requires base >= 2
    decreases n
  {
    hide Quot, Rem;
    QuotSmaller(n, base);
    1 + if Quot(n, base) == 0 then 0 else DigitCount(Quot(n, base), base)
  }

  lemma DigitRoundTrip(d: nat)
    requires d < 36
    ensures DigitValue(DigitChar(d)) == Some(d) && (DigitChar(d) == '0' <==> d == 0)
  {
  }

  lemma {:induction false} NumeralDecodes(n: nat, base: nat)
    requires 2 <= base <= 36
    ensures Decode(Numeral(n, base), base) == Some(n)
    decreases n
  {
    hide Quot, Rem, DigitValue, DigitChar;
    QuotSmaller(n, base);
    QuotRem(n, base);
    var text := Numeral(n, base);
    var rest := if n < base then "" else Numeral(Quot(n, base), base);
    assert text[..|text|-1] == rest;
    DigitRoundTrip(Rem(n, base));
    if n >= base {
      NumeralDecodes(Quot(n, base), base);
    } else {
      assert Decode(rest, base) == Some(0);
    }
  }

  lemma {:induction false} NumeralLength(n: nat, base: nat)
    requires 2 <= base <= 36
    ensures |Numeral(n, base)| == DigitCount(n, base)
    decreases n
  {
    hide Quot, Rem, DigitChar;
    QuotSmaller(n, base);
    if n >= base { NumeralLength(Quot(n, base), base); }
  }

  /** No leading zero, except for zero itself, whose numeral is "0". */
  lemma {:induction false} NoLeadingZero(n: nat, base: nat)
    requires 2 <= base <= 36
    ensures Numeral(n, base)[0] == '0' <==> n == 0
    ensures n == 0 ==> Numeral(n, base) == "0"
    decreases n
  {
    hide Quot, Rem, DigitChar;
    QuotSmaller(n, base);
    DigitRoundTrip(Rem(n, base));
    if n >= base { NoLeadingZero(Quot(n, base), base); }
  }

  // ---------- The loops ----------

  /** The second loop of ulltoa and lltoa: the digits of number from position p down; returns where the last was
      written. */
  method WriteDigits(str: array<char>, from: nat, number: nat, base: nat) returns (p: nat)
    requires 2 <= base <= 36 && DigitCount(number, base) <= from < str.Length
    modifies str
    ensures p == from - DigitCount(number, base) && str[p..from] == Numeral(number, base)
    ensures forall k :: 0 <= k < str.Length && !(p <= k < from) ==> str[k] == old(str[k])
  {
    hide Quot, Rem, DigitChar;
    p := from;
    var i: nat := number;
    while true
      invariant p <= from && DigitCount(i, base) <= p
      invariant Numeral(number, base) == Numeral(i, base) + str[p..from]
      invariant p - DigitCount(i, base) == from - DigitCount(number, base)
      invariant forall k :: 0 <= k < str.Length && !(p <= k < from) ==> str[k] == old(str[k])
      decreases i
    {
      ghost var done := str[p..from];
      p := p - 1;
      str[p] := DigitChar(Rem(i, base));
      assert str[p..from] == [DigitChar(Rem(i, base))] + done;
      LastDigit(i, base);
      i := Quot(i, base);
      if i == 0 { return; }
    }
  }

  lemma LastDigit(i: nat, base: nat)
    requires 2 <= base <= 36
    ensures var q, d := Quot(i, base), [DigitChar(Rem(i, base))];
            if q == 0 then Numeral(i, base) == d && DigitCount(i, base) == 1
            else Numeral(i, base) == Numeral(q, base) + d && DigitCount(i, base) == DigitCount(q, base) + 1 && q < i
  {
    hide Quot, Rem, DigitChar;
    QuotSmaller(i, base);
  }

  /** The first loop: as many steps as the number has digits. */
  method CountDigits(number: nat, base: nat) returns (p: nat)
    requires base >= 2
    ensures p == DigitCount(number, base)
  {
    hide Quot, Rem;
    p := 0;
    var shifter: nat := number;
    while true
      invariant p + DigitCount(shifter, base) == DigitCount(number, base)
      decreases shifter
    {
      p := p + 1;
      QuotSmaller(shifter, base);
      shifter := Quot(shifter, base);
      if shifter == 0 { return; }
    }
  }

  /** ulltoa: the two loops agree, so that writing ends at the first character. */
  method Ulltoa(number: nat, str: array<char>, base: nat) returns (n: nat)
    requires number < WORDS && 2 <= base <= 36 && |Numeral(number, base)| < str.Length
    modifies str
    ensures n < str.Length && str[..n] == Numeral(number, base) && str[n] == '\0'
    ensures Decode(str[..n], base) == Some(number)
    ensures forall k :: n < k < str.Length ==> str[k] == old(str[k])
  {
    hide Numeral, DigitCount;
    NumeralLength(number, base);
    n := CountDigits(number, base);
    str[n] := '\0';
    var p := WriteDigits(str, n, number, base);
    assert str[p..n] == str[..n];
    NumeralDecodes(number, base);
  }

  /** The text of a number with a sign. */
  function Signed(number: int, base: nat): string
    requires 2 <= base <= 36
  {
    if number < 0 then "-" + Numeral(-number, base) else Numeral(number, base)
  }

  /** A sign stands in front exactly of negative numbers, and the rest decodes to the absolute value. */
  lemma SignedMeans(number: int, base: nat)
    requires 2 <= base <= 36
    ensures var text := Signed(number, base);
            && text != "" && (text[0] == '-' <==> number < 0)
            && (number < 0 ==> Decode(text[1..], base) == Some(-number))
            && (number >= 0 ==> Decode(text, base) == Some(number))
  {
    hide Numeral, Decode;
    var n := if number < 0 then -number else number;
    FirstIsDigit(n, base);
    NumeralDecodes(n, base);
    assert ("-" + Numeral(n, base))[1..] == Numeral(n, base);
  }

  /** The text of a number with a sign determines it. */
  lemma SignedDetermines(a: int, b: int, base: nat)
    requires 2 <= base <= 36 && Signed(a, base) == Signed(b, base)
    ensures a == b
  {
    hide Numeral;
    var x, y := if a < 0 then -a else a, if b < 0 then -b else b;
    FirstIsDigit(x, base);
    FirstIsDigit(y, base);
    assert a < 0 <==> b < 0;
    assert a < 0 ==> Signed(a, base)[1..] == Numeral(x, base) && Signed(b, base)[1..] == Numeral(y, base);
    NumeralDecodes(x, base);
    NumeralDecodes(y, base);
  }

  lemma {:induction false} FirstIsDigit(n: nat, base: nat)
    requires 2 <= base <= 36
    ensures Numeral(n, base) != "" && Numeral(n, base)[0] != '-'
    decreases n
  {
    hide Quot, Rem;
    QuotSmaller(n, base);
    QuotRem(n, base);
    if n >= base { FirstIsDigit(Quot(n, base), base); }
  }

  /** lltoa: a sign, then the digits of the absolute value. */
  method Lltoa(number: int, str: array<char>, base: nat) returns (n: nat)
    requires -0x8000_0000_0000_0000 < number < 0x8000_0000_0000_0000 && 2 <= base <= 36
    requires |Signed(number, base)| < str.Length
    modifies str
    ensures n < str.Length && str[n] == '\0'
    ensures str[..n] == Signed(number, base)
    ensures forall k :: n < k < str.Length ==> str[k] == old(str[k])
  {
    hide Numeral, DigitCount;
    var start, i := 0, number;
    if i < 0 {
      str[0] := '-';
      start, i := 1, -i;
    }
    NumeralLength(i, base);
    var count := CountDigits(i, base);
    n := start + count;
    str[n] := '\0';
    var p := WriteDigits(str, n, i, base);
    assert str[..n] == str[..start] + str[start..n];
  }
}
