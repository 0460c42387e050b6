/** Decimal integers as fmt prints them (%d) and strconv.ParseInt reads them (base 10, 64 bits). */
module Decimal {
  import opened Prelude

  const MIN_INT64: int := -0x8000_0000_0000_0000
  const MAX_INT64: int := 0x7fff_ffff_ffff_ffff

  predicate IsInt64(n: int) {
    MIN_INT64 <= n <= MAX_INT64
  }

  predicate IsDigit(c: char) {
    '0' <= c <= '9'
  }

  function DigitChar(d: nat): (c: char)
    requires d < 10
    ensures IsDigit(c) && (c as int) - ('0' as int) == d
  {
    '0' + d as char
  }

  function PrintNat(n: nat): (s: string)
    ensures s != [] && forall c :: c in s ==> IsDigit(c)
  {
    if n < 10 then [DigitChar(n)] else PrintNat(n / 10) + [DigitChar(n % 10)]
  }

  function Print(n: int): string {
    if n < 0 then "-" + PrintNat(-n) else PrintNat(n)
  }

  function ParseDigits(s: string): Option<nat>
    decreases |s|
  {
    if s == [] then Some(0)
    else if !IsDigit(s[|s| - 1]) then None
    else
      match ParseDigits(s[..|s| - 1])
      case None => None
      case Some(n) => Some(10 * n + (s[|s| - 1] as int - '0' as int))
  }

  /** An optional sign and at least one digit, within 64 bits. */
  function Parse(s: string): Option<int> {
    if s == [] then None
    else
      var digits := if s[0] == '-' || s[0] == '+' then s[1..] else s;
      if digits == [] then None
      else
        match ParseDigits(digits)
        case None => None
        case Some(n) =>
          var m: int := n;
          var v: int := if s[0] == '-' then 0 - m else m;
          if IsInt64(v) then Some(v) else None
  }

  lemma {:induction false} ParsePrintNat(n: nat)
    ensures ParseDigits(PrintNat(n)) == Some(n)
  {
    if n < 10 {
      assert PrintNat(n)[..0] == [];
    } else {
      ParsePrintNat(n / 10);
      assert PrintNat(n)[..|PrintNat(n)| - 1] == PrintNat(n / 10);
    }
  }

  lemma ParsePrint(n: int)
    requires IsInt64(n)
    ensures Parse(Print(n)) == Some(n)
  {
    ParsePrintNat(if n < 0 then -n else n);
    if n < 0 {
      assert Print(n)[1..] == PrintNat(-n);
    } else {
      assert IsDigit(Print(n)[0]) by {
        assert Print(n)[0] in Print(n);
      }
    }
  }

  /** Decimal text holds no separator and no control character. */
  lemma PrintPlain(n: int)
    ensures forall c :: c in Print(n) ==> IsDigit(c) || c == '-'
    ensures Print(n) != []
  {
  }

  lemma ParseInt64(s: string)
    ensures Parse(s).Some? ==> IsInt64(Parse(s).value)
  {
  }

  /** Digits come in the usual order, most significant first. */
  lemma PrintedDigits()
    ensures Print(1205) == "1205" && Print(-70) == "-70" && Print(0) == "0"
  {
    assert PrintNat(1) == "1" && PrintNat(12) == PrintNat(1) + "2" && PrintNat(120) == PrintNat(12) + "0";
    assert PrintNat(1205) == PrintNat(120) + "5" && PrintNat(70) == PrintNat(7) + "0";
  }

  /** One more digit counts the ones before it ten times. */
  lemma ParseDigit(s: string, c: char)
    requires ParseDigits(s).Some?
    ensures ParseDigits(s + [c]) ==
            if IsDigit(c) then Some(10 * ParseDigits(s).value + (c as int - '0' as int)) else None
  {
    assert (s + [c])[..|s|] == s;
  }

  lemma FortyTwo()
    ensures ParseDigits("42") == ParseDigits("0042") == Some(42)
  {
    ParseDigit("", '0');
    ParseDigit("0", '0');
    ParseDigit("00", '4');
    ParseDigit("004", '2');
    ParseDigit("", '4');
    ParseDigit("4", '2');
    assert "" + ['0'] == "0" && "0" + ['0'] == "00" && "00" + ['4'] == "004" && "004" + ['2'] == "0042";
    assert "" + ['4'] == "4" && "4" + ['2'] == "42";
  }

  /** Leading zeros and a plus sign are read. */
  lemma ParsedText()
    ensures Parse("0042") == Parse("+42") == Parse("42") == Some(42) && Parse("-42") == Some(-42)
  {
    FortyTwo();
    assert "+42"[1..] == "42" == "-42"[1..];
  }

  /** Text without digits, or with anything after them, is not. */
  lemma UnparsedText()
    ensures Parse("") == Parse("-") == Parse("42 ") == None
  {
    FortyTwo();
    ParseDigit("42", ' ');
    assert "42" + [' '] == "42 ";
  }

  /** The range ends at 64 bits. */
  lemma ParseLimits()
    ensures Parse(Print(9223372036854775807)).Some? && Parse(Print(9223372036854775808)).None?
    ensures Parse(Print(-9223372036854775808)).Some? && Parse(Print(-9223372036854775809)).None?
  {
    ParsePrint(9223372036854775807);
    ParsePrint(-9223372036854775808);
    ParsePrintNat(9223372036854775808);
    ParsePrintNat(9223372036854775809);
    var over, under := Print(9223372036854775808), Print(-9223372036854775809);
    assert IsDigit(over[0]) by {
      assert over[0] in over;
    }
    assert under[1..] == PrintNat(9223372036854775809);
  }
}
