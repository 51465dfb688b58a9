/** How records print and parse their scalar values: decimal 64-bit integers and booleans. */
module Decimal {
  import opened Prelude

  function DigitChar(d: nat): char
    requires d < 10
  {
    "0123456789"[d]
  }

  function DigitValue(c: char): Option<nat> {
    if '0' <= c <= '9' then Some(c as int - '0' as int) else None
  }

  lemma DigitInverse(d: nat)
    requires d < 10
    ensures DigitValue(DigitChar(d)) == Some(d)
  {
  }

  lemma CharInverse(c: char)
    requires DigitValue(c).Some?
    ensures DigitValue(c).value < 10 && DigitChar(DigitValue(c).value) == c
  {
  }

  function PrintNat(n: nat): string {
    if n < 10 then [DigitChar(n)] else PrintNat(n / 10) + [DigitChar(n % 10)]
  }

  function PrintInt(n: int): string { if n < 0 then "-" + PrintNat(-n) else PrintNat(n) }

  /** Digits only, and at least one. */
  function ParseNat(s: string): Option<nat> {
    if s == [] then None
    else
      var last := DigitValue(s[|s| - 1]);
      if last.None? then None
      else if |s| == 1 then last
      else
        var init := ParseNat(s[..|s| - 1]);
        if init.None? then None else Some(10 * init.value + last.value)
  }

  /** An optional sign, then digits; values outside of 64 bits are refused. */
  function ParseInt(s: string): Option<int> {
    var signed := s != [] && (s[0] == '-' || s[0] == '+');
    var magnitude := ParseNat(if signed then s[1..] else s);
    if magnitude.None? then None
    else
      var m: int := magnitude.value;
      var n := if signed && s[0] == '-' then -m else m;
      if -TWO_63 <= n < TWO_63 then Some(n) else None
  }

  lemma {:induction false} PrintedNatParses(n: nat)
    ensures ParseNat(PrintNat(n)) == Some(n)
    ensures PrintNat(n) != [] && DigitValue(PrintNat(n)[0]).Some?
  {
    DigitInverse(n % 10);
    if n >= 10 {
      PrintedNatParses(n / 10);
      NextDigitParses(PrintNat(n / 10), n % 10);
    }
  }

  lemma NextDigitParses(s: string, d: nat)
    requires d < 10 && ParseNat(s).Some?
    ensures ParseNat(s + [DigitChar(d)]) == Some(10 * ParseNat(s).value + d)
  {
    DigitInverse(d);
    assert (s + [DigitChar(d)])[..|s|] == s;
  }

  /** Every 64-bit integer is read back as printed. */
  lemma PrintedIntParses(n: int)
    requires -TWO_63 <= n < TWO_63
    ensures ParseInt(PrintInt(n)) == Some(n)
  {
    PrintedNatParses(if n < 0 then -n else n);
    if n < 0 {
      assert PrintInt(n)[1..] == PrintNat(-n);
    }
  }

  /** No plus sign, no leading zero, no negative zero. */
  predicate Canonical(s: string) {
    var digits := if s != [] && s[0] == '-' then s[1..] else s;
    && s != [] && s[0] != '+'
    && digits != [] && (digits[0] == '0' ==> s == "0")
  }

  lemma NextPrints(a: nat, d: nat)
    requires 0 < a && d < 10
    ensures PrintNat(10 * a + d) == PrintNat(a) + [DigitChar(d)]
  {
    LastDigit(a, d);
  }

  lemma LastDigit(a: nat, d: nat)
    requires d < 10
    ensures (10 * a + d) / 10 == a && (10 * a + d) % 10 == d
  {
  }

  lemma ParseLast(s: string)
    requires |s| > 1 && ParseNat(s).Some?
    ensures var init, last := ParseNat(s[..|s| - 1]), DigitValue(s[|s| - 1]);
            init.Some? && last.Some? && last.value < 10 && ParseNat(s).value == 10 * init.value + last.value
  {
    CharInverse(s[|s| - 1]);
  }

  lemma {:induction false} ParsedIsPositive(s: string)
    requires ParseNat(s).Some? && s[0] != '0'
    ensures ParseNat(s).value > 0
  {
    if |s| > 1 {
      ParseLast(s);
      ParsedIsPositive(s[..|s| - 1]);
    }
  }

  lemma {:induction false} ParsedNatPrints(s: string)
    requires ParseNat(s).Some? && (s[0] == '0' ==> |s| == 1)
    ensures PrintNat(ParseNat(s).value) == s
  {
    var n := |s| - 1;
    CharInverse(s[n]);
    if n > 0 {
      ParseLast(s);
      ParsedIsPositive(s[..n]);
      ParsedNatPrints(s[..n]);
      NextPrints(ParseNat(s[..n]).value, DigitValue(s[n]).value);
      assert s == s[..n] + [s[n]];
    } else {
      assert s == [s[0]];
    }
  }

  lemma {:induction false} PrintedNatLeads(n: nat)
    ensures PrintNat(n)[0] == '0' <==> n == 0
  {
    PrintedNatParses(n);
    if n >= 10 {
      PrintedNatLeads(n / 10);
      PrintedNatParses(n / 10);
    }
  }

  lemma NegativePrints(s: string)
    requires ParseInt(s).Some? && Canonical(s) && s[0] == '-'
    ensures PrintInt(ParseInt(s).value) == s
  {
    assert s[1] != '0';
    ParsedIsPositive(s[1..]);
    ParsedNatPrints(s[1..]);
    assert s == "-" + s[1..];
  }

  lemma CanonicalPrints(s: string)
    requires ParseInt(s).Some? && Canonical(s)
    ensures PrintInt(ParseInt(s).value) == s
  {
    if s[0] == '-' {
      NegativePrints(s);
    } else {
      ParsedNatPrints(s);
    }
  }

  lemma PrintedIsCanonical(n: int)
    ensures Canonical(PrintInt(n))
  {
    var m := if n < 0 then -n else n;
    PrintedNatLeads(m);
    PrintedNatParses(m);
    if n < 0 {
      assert PrintInt(n)[1..] == PrintNat(m);
    }
  }

  /** What a string parses to prints as that string exactly when it is canonical. */
  lemma ParsedIntPrints(s: string)
    requires ParseInt(s).Some?
    ensures PrintInt(ParseInt(s).value) == s <==> Canonical(s)
  {
    if Canonical(s) {
      CanonicalPrints(s);
    }
    PrintedIsCanonical(ParseInt(s).value);
  }

  function Numeral(d: nat): char
    requires d < 10
  {
    ('0' as int + d) as char
  }

  /** Numbers are printed in base ten, most significant digit first, behind a minus sign if negative. */
  lemma BaseTen(a: nat, d: nat)
    requires d < 10
    ensures PrintNat(10 * a + d) == (if a == 0 then [] else PrintNat(a)) + [Numeral(d)]
    ensures PrintInt(a) == PrintNat(a)
    ensures a > 0 ==> var n: int := a; PrintInt(-n) == "-" + PrintNat(a)
  {
    assert DigitChar(d) == Numeral(d);
    if a > 0 {
      NextPrints(a, d);
    }
  }

  /** Exactly non-empty strings of digits are read as natural numbers. */
  lemma {:induction false} DigitsAreRead(s: string)
    ensures ParseNat(s).Some? <==> s != [] && forall c <- s :: '0' <= c <= '9'
  {
    if s != [] {
      var init := s[..|s| - 1];
      assert s == init + [s[|s| - 1]];
      assert forall c <- s :: c in init || c == s[|s| - 1];
      assert s[|s| - 1] in s && forall c <- init :: c in s;
      DigitsAreRead(init);
    }
  }

  /** A plus sign or leading zeros make no difference. */
  lemma {:induction false} LeadingZero(s: string)
    requires ParseNat(s).Some?
    ensures ParseNat("0" + s) == ParseNat(s)
    ensures ParseInt("+" + s) == ParseInt(s)
  {
    assert ("+" + s)[1..] == s;
    assert ("0" + s)[..|s|] == "0" + s[..|s| - 1];
    if |s| > 1 {
      LeadingZero(s[..|s| - 1]);
    } else {
      assert "0" + s[..0] == "0";
    }
    DigitsAreRead(s);
    assert s[0] in s;
  }

  /** Outside of 64 bits nothing is read. */
  lemma WideIsRefused(n: int)
    requires !(-TWO_63 <= n < TWO_63)
    ensures ParseInt(PrintInt(n)) == None
  {
    PrintedNatParses(if n < 0 then -n else n);
    if n < 0 {
      assert PrintInt(n)[1..] == PrintNat(-n);
    }
  }

  function PrintBool(b: bool): string { if b then "true" else "false" }

  function ParseBool(s: string): Option<bool> {
    if s == "1" || s == "t" || s == "T" || s == "TRUE" || s == "true" || s == "True" then Some(true)
    else if s == "0" || s == "f" || s == "F" || s == "FALSE" || s == "false" || s == "False" then Some(false)
    else None
  }
}
