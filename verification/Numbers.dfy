/** std::stoi and std::stol (src/fidi_driver.cc:122, 236, src/fidi_app_driver.cc:136-158). */
module Numbers {
  import opened Lexical

  datatype Conversion = NoDigits | TooLarge | Converted(n: int, idx: nat)

  predicate IsSpace(c: char) {
    IsBlank(c) || c == '\U{B}' || c == '\U{C}'
  }

  /** Leading white space, an optional sign, the longest run of digits. */
  function Convert(s: string, lo: int, hi: int): (r: Conversion)
    ensures r.Converted? ==> lo <= r.n <= hi && r.idx <= |s|
  {
    var i := Span(IsSpace, s);
    var signed := i < |s| && (s[i] == '-' || s[i] == '+');
    var j := if signed then i + 1 else i;
    var k := Span(IsDigit, s[j..]);
    if k == 0 then NoDigits
    else
      var magnitude: int := NumeralValue(s[j..][..k]);
      var n := if signed && s[i] == '-' then -magnitude else magnitude;
      if lo <= n <= hi then Converted(n, j + k) else TooLarge
  }

  function Stoi(s: string): Conversion {
    Convert(s, -INT_MAX - 1, INT_MAX)
  }

  function Stol(s: string): Conversion {
    Convert(s, -0x8000_0000_0000_0000, 0x7fff_ffff_ffff_ffff)
  }

  lemma StolExtendsStoi(s: string)
    ensures Stoi(s).Converted? ==> Stol(s) == Stoi(s)
  {
  }

  /** The whole text is one int. */
  predicate IsInt(s: string) {
    Stoi(s).Converted? && Stoi(s).idx == |s|
  }

  // ---------- printed numbers ----------

  lemma DigitsConvert(s: string, lo: int, hi: int)
    requires IsNumeral(s)
    ensures Convert(s, lo, hi)
            == if lo <= NumeralValue(s) <= hi then Converted(NumeralValue(s), |s|) else TooLarge
  {
    NoSpace(s);
    AllDigits(s);
    hide Span, NumeralValue;
    assert s[0..] == s && s[..|s|] == s;
  }

  lemma NoSpace(s: string)
    requires IsNumeral(s)
    ensures Span(IsSpace, s) == 0
  {
    assert !IsSpace(s[0]);
  }

  lemma AllDigits(s: string)
    requires IsNumeral(s)
    ensures Span(IsDigit, s) == |s|
  {
    assert s + "" == s;
    SpanOfPrefix(IsDigit, s, "");
  }

  /** A printed number converts to itself if it fits, with nothing left over. */
  lemma DecimalIsInt(n: nat)
    ensures Stoi(Decimal(n)) == if n <= 2147483647 then Converted(n, |Decimal(n)|) else TooLarge
  {
    DecimalValue(n);
    DigitsConvert(Decimal(n), -INT_MAX - 1, INT_MAX);
  }

  lemma DecimalIsLong(n: nat)
    ensures Stol(Decimal(n)) == if n <= 9223372036854775807 then Converted(n, |Decimal(n)|) else TooLarge
  {
    DecimalValue(n);
    DigitsConvert(Decimal(n), -0x8000_0000_0000_0000, 0x7fff_ffff_ffff_ffff);
  }
}
