/** Amounts as text. The bulk import stores `parseFloat(row.amount).toString()`, and the
    `amount` column, `numeric(12, 2)`, reads text as a decimal rounded to cents. Both are
    modelled exactly on finite decimal numbers: a `Decimal` is its digits as one natural
    number and the count of digits after the point. Exponents, `Infinity` and numbers a double
    cannot hold exactly are outside the model and are reported as such, never guessed. */
module Amounts {
  import opened Common

  /** (-1)^negative * mantissa / 10^scale. */
  datatype Decimal = Decimal(negative: bool, mantissa: nat, scale: nat)

  /** What a scan of a number finds: no number, a finite decimal, or a form outside the model. */
  datatype Parsed = NaN | Number(d: Decimal) | Unmodelled

  /** The shortest spelling: no trailing zero after the point, and zero is unsigned. */
  predicate Canonical(d: Decimal) {
    if d.mantissa == 0 then !d.negative && d.scale == 0
    else d.scale == 0 || d.mantissa % 10 != 0
  }

  /** Drops trailing fraction zeros, keeping the value. */
  function Normalize(d: Decimal): (r: Decimal)
    ensures Canonical(r)
    ensures r.scale <= d.scale
    ensures r.mantissa * Pow10(d.scale - r.scale) == d.mantissa
    ensures r.mantissa != 0 ==> r.negative == d.negative
    ensures Canonical(d) ==> r == d
    decreases d.scale
  {
    if d.mantissa == 0 then Decimal(false, 0, 0)
    else if d.scale > 0 && d.mantissa % 10 == 0 then
      var r := Normalize(Decimal(d.negative, d.mantissa / 10, d.scale - 1));
      assert Pow10(d.scale - r.scale) == 10 * Pow10(d.scale - 1 - r.scale);
      r
    else d
  }

  // ---------------------------------------------------------------------------------------
  // Scanning

  predicate StartsWith(t: string, p: string) {
    |p| <= |t| && t[..|p|] == p
  }

  /** An exponent part starts here: `e` or `E`, an optional sign, then a digit. */
  predicate ExponentFollows(t: string) {
    |t| >= 2 && (t[0] == 'e' || t[0] == 'E')
    && (IsDigit(t[1]) || (|t| >= 3 && (t[1] == '+' || t[1] == '-') && IsDigit(t[2])))
  }

  /** The digits before the point, the digits after it, and what follows them. */
  function Scan(body: string): (r: (string, string, string))
    ensures AllDigits(r.0) && AllDigits(r.1)
  {
    var whole := LeadingDigits(body);
    var rest := body[|whole|..];
    if rest != [] && rest[0] == '.' then
      var frac := LeadingDigits(rest[1..]);
      (whole, frac, rest[1 + |frac|..])
    else (whole, "", rest)
  }

  lemma AllDigitsAppend(a: string, b: string)
    requires AllDigits(a) && AllDigits(b)
    ensures AllDigits(a + b)
  {
  }

  /** `parseFloat(s)`: leading whitespace is skipped, then an optional sign and the longest
      decimal prefix are read and anything after it is ignored. */
  function ParseFloat(s: string): (r: Parsed)
    ensures r.Number? ==> LeadingDigits(SignStripped(TrimStart(s))) != [] || Scan(SignStripped(TrimStart(s))).1 != []
  {
    var t := TrimStart(s);
    var body := SignStripped(t);
    var (whole, frac, after) := Scan(body);
    if whole == [] && frac == [] then
      if StartsWith(body, "Infinity") then Unmodelled else NaN
    else if ExponentFollows(after) then Unmodelled
    else
      AllDigitsAppend(whole, frac);
      Number(Decimal(t != [] && t[0] == '-', DigitsValue(whole + frac), |frac|))
  }

  // ---------------------------------------------------------------------------------------
  // Printing

  /** n as exactly k digits, with leading zeros. */
  function PadDigits(n: nat, k: nat): (s: string)
    requires n < Pow10(k)
    ensures |s| == k && AllDigits(s) && DigitsValue(s) == n
  {
    if k == 0 then []
    else
      var p := PadDigits(n / 10, k - 1);
      var s := p + [DigitChar(n % 10)];
      assert s[..|s| - 1] == p;
      s
  }

  /** The integer part and the fraction digits of m / 10^k. */
  function IntFrac(m: nat, k: nat): (r: (nat, nat))
    ensures r.1 < Pow10(k) && r.0 * Pow10(k) + r.1 == m
  {
    var p := Pow10(k);
    DivMod(m, p);
    (m / p, m % p)
  }

  /** A sign, integer digits, and a point followed by the fraction digits when there are any. */
  function Spell(negative: bool, ip: string, fd: string): string {
    (if negative then "-" else "") + ip + (if fd == [] then [] else "." + fd)
  }

  /** The k fraction digits of a fraction f, none when k is 0. */
  function FracDigits(f: nat, k: nat): (s: string)
    requires f < Pow10(k)
    ensures |s| == k && AllDigits(s) && DigitsValue(s) == f
  {
    if k == 0 then "" else PadDigits(f, k)
  }

  /** The decimal spelling: sign, integer part, and the fraction digits when there are any. */
  function DecimalText(d: Decimal): string {
    var (whole, frac) := IntFrac(d.mantissa, d.scale);
    Spell(d.negative, NatToString(whole), FracDigits(frac, d.scale))
  }

  /** Numbers whose `toString` is their plain decimal spelling: at most 15 significant digits
      (so that the double holds them exactly enough to print them back) and at most six
      decimals (below 1e-6 JavaScript switches to exponent form). */
  predicate InModel(d: Decimal) {
    d.mantissa < Pow10(15) && d.scale <= 6
  }

  /** `parseFloat(s).toString()`: "NaN" when nothing is read, else the canonical spelling of
      the number read; None outside the model. */
  function AmountText(s: string): (r: Option<string>)
    ensures ParseFloat(s).NaN? ==> r == Some("NaN")
    ensures ParseFloat(s).Unmodelled? ==> r.None?
    ensures ParseFloat(s).Number? && InModel(Normalize(ParseFloat(s).d))
            ==> r == Some(DecimalText(Normalize(ParseFloat(s).d)))
  {
    match ParseFloat(s)
    case NaN => Some("NaN")
    case Unmodelled => None
    case Number(d) =>
      var n := Normalize(d);
      if InModel(n) then Some(DecimalText(n)) else None
  }

  // ---------------------------------------------------------------------------------------
  // Reading back what was printed

  lemma TrimStartNoSpace(s: string)
    requires s != [] && !IsJsSpace(s[0])
    ensures TrimStart(s) == s
  {
  }

  lemma {:induction false} LeadingDigitsConcat(a: string, b: string)
    requires AllDigits(a) && (b == [] || !IsDigit(b[0]))
    ensures LeadingDigits(a + b) == a
  {
    if a != [] {
      assert (a + b)[1..] == a[1..] + b;
      LeadingDigitsConcat(a[1..], b);
    }
  }

  lemma {:induction false} DigitsValueConcat(a: string, b: string)
    requires AllDigits(a) && AllDigits(b)
    ensures AllDigits(a + b)
    ensures DigitsValue(a + b) == DigitsValue(a) * Pow10(|b|) + DigitsValue(b)
  {
    if b != [] {
      var n := |b| - 1;
      assert (a + b)[..|a + b| - 1] == a + b[..n];
      DigitsValueConcat(a, b[..n]);
      assert b[..|b| - 1] == b[..n];
      Regroup(DigitsValue(a), Pow10(n), DigitsValue(b[..n]), DigitValue(b[n]));
    } else {
      assert a + b == a;
    }
  }

  lemma Regroup(a: int, p: int, b: int, d: int)
    ensures (a * p + b) * 10 + d == a * (10 * p) + (b * 10 + d)
  {
  }

  /** A spelling starts with its sign or a digit and ends with a digit. */
  lemma SpellEnds(negative: bool, ip: string, fd: string)
    requires ip != [] && AllDigits(ip) && AllDigits(fd)
    ensures var text := Spell(negative, ip, fd);
      && text != [] && !IsJsSpace(text[0]) && !IsJsSpace(text[|text| - 1])
      && (text[0] == '-' <==> negative)
  {
    var tail: string := if fd == [] then [] else "." + fd;
    var text := Spell(negative, ip, fd);
    assert text[|text| - 1] == (ip + tail)[|ip + tail| - 1];
    assert IsDigit(text[|text| - 1]);
  }

  /** A scan of a spelling without its sign finds the integer digits, the fraction digits and
      nothing after them. */
  lemma SpellScan(negative: bool, ip: string, fd: string)
    requires ip != [] && AllDigits(ip) && AllDigits(fd)
    ensures Scan(SignStripped(Spell(negative, ip, fd))) == (ip, fd, "")
  {
    var tail: string := if fd == [] then [] else "." + fd;
    var text := Spell(negative, ip, fd);
    assert SignStripped(text) == ip + tail by {
      if negative {
        assert text == "-" + (ip + tail);
      } else {
        assert text == ip + tail;
      }
    }
    if fd == [] {
      ScanWhole(ip);
    } else {
      ScanFraction(ip, fd);
    }
  }

  lemma ScanWhole(ip: string)
    requires AllDigits(ip)
    ensures Scan(ip + []) == (ip, "", "")
  {
    assert ip + [] == ip;
    AllDigitsLeading(ip);
    assert ip[|ip|..] == [];
  }

  lemma ScanFraction(ip: string, fd: string)
    requires AllDigits(ip) && AllDigits(fd)
    ensures Scan(ip + ("." + fd)) == (ip, fd, "")
  {
    var tail := "." + fd;
    var body := ip + tail;
    LeadingDigitsConcat(ip, tail);
    assert body[|ip|..] == tail;
    assert tail[1..] == fd;
    AllDigitsLeading(fd);
    assert tail[1 + |fd|..] == "";
  }

  /** The digits of a spelling, read together, are the mantissa. */
  lemma DecimalTextDigits(d: Decimal)
    ensures var (whole, frac) := IntFrac(d.mantissa, d.scale);
      var ip := NatToString(whole);
      var fd := FracDigits(frac, d.scale);
      AllDigits(ip + fd) && DigitsValue(ip + fd) == d.mantissa
  {
    var (whole, frac) := IntFrac(d.mantissa, d.scale);
    DigitsValueConcat(NatToString(whole), FracDigits(frac, d.scale));
  }

  lemma DecimalTextScan(d: Decimal)
    ensures var text := DecimalText(d);
      && text != [] && !IsJsSpace(text[0]) && !IsJsSpace(text[|text| - 1])
      && (text[0] == '-' <==> d.negative)
      && var sc := Scan(SignStripped(text));
      && sc.0 != [] && sc.2 == "" && |sc.1| == d.scale
      && AllDigits(sc.0 + sc.1) && DigitsValue(sc.0 + sc.1) == d.mantissa
  {
    var (whole, frac) := IntFrac(d.mantissa, d.scale);
    var ip, fd := NatToString(whole), FracDigits(frac, d.scale);
    assert DecimalText(d) == Spell(d.negative, ip, fd);
    SpellEnds(d.negative, ip, fd);
    SpellScan(d.negative, ip, fd);
    assert AllDigits(ip + fd) && DigitsValue(ip + fd) == d.mantissa by {
      DecimalTextDigits(d);
    }
    assert |fd| == d.scale;
  }

  /** `parseFloat` reads back exactly the decimal the spelling was made from. */
  lemma ParseDecimalText(d: Decimal)
    ensures ParseFloat(DecimalText(d)) == Number(d)
  {
    DecimalTextScan(d);
    TrimStartNoSpace(DecimalText(d));
  }

  /** Re-serialising is idempotent: the stored spelling, read and printed again, is itself. */
  lemma AmountTextIdempotent(s: string)
    requires AmountText(s).Some?
    ensures AmountText(AmountText(s).value) == AmountText(s)
  {
    match ParseFloat(s)
    case NaN =>
      NaNText();
    case Number(d) =>
      CanonicalText(Normalize(d));
    case Unmodelled =>
  }

  /** "NaN" is read as no number and printed back as itself. */
  lemma NaNText()
    ensures AmountText("NaN") == Some("NaN")
  {
    assert Scan("NaN") == ("", "", "NaN");
    assert TrimStart("NaN") == "NaN" by { TrimStartNoSpace("NaN"); }
  }

  /** A canonical decimal in the model is printed back as its own spelling. */
  lemma CanonicalText(n: Decimal)
    requires Canonical(n) && InModel(n)
    ensures AmountText(DecimalText(n)) == Some(DecimalText(n))
  {
    ParseDecimalText(n);
  }

  /** The stored spelling denotes the number that was read: read back, it is that number up to
      trailing fraction zeros. */
  lemma AmountTextValue(s: string)
    requires ParseFloat(s).Number? && AmountText(s).Some?
    ensures var d := ParseFloat(s).d;
      ParseFloat(AmountText(s).value) == Number(Normalize(d))
      && Normalize(d).mantissa * Pow10(d.scale - Normalize(d).scale) == d.mantissa
  {
    ParseDecimalText(Normalize(ParseFloat(s).d));
  }

  // ---------------------------------------------------------------------------------------
  // The numeric(12, 2) column

  /** What the column makes of a text value: an error, a whole number of cents, or a special
      value (NaN, Infinity) or exponent form outside the model. */
  datatype Numeric = Invalid | Cents(cents: int) | NotModelled

  /** `m / 10^scale` rounded to two decimals, half away from zero, in cents. */
  function RoundToCents(m: nat, scale: nat): (c: nat)
  {
    if scale <= 2 then m * Pow10(2 - scale)
    else
      var unit := Pow10(scale - 2);
      var q := m / unit;
      if 2 * (m % unit) >= unit then q + 1 else q
  }

  /** A text value written to the column: surrounding spaces are ignored, the whole of the
      rest must be a signed decimal, it is rounded to cents, and it must have at most ten
      integer digits. */
  function NumericCents(s: string): (r: Numeric)
    ensures r.Cents? ==> -(Pow10(12) as int) < r.cents < Pow10(12)
  {
    var t := Trim(s);
    var body := SignStripped(t);
    var (whole, frac, after) := Scan(body);
    if whole == [] && frac == [] then
      if Lower(body) in {"nan", "infinity", "inf"} then NotModelled else Invalid
    else if ExponentFollows(after) then NotModelled
    else if after != [] then Invalid
    else
      AllDigitsAppend(whole, frac);
      var c := RoundToCents(DigitsValue(whole + frac), |frac|);
      if c >= Pow10(12) then Invalid
      else Cents(if t[0] == '-' then -(c as int) else c)
  }

  /** An amount in cents written with two decimals. */
  function CentsText(c: int): string {
    DecimalText(Decimal(c < 0, if c < 0 then -c else c, 2))
  }

  lemma TrimNoSpace(s: string)
    requires s != [] && !IsJsSpace(s[0]) && !IsJsSpace(s[|s| - 1])
    ensures Trim(s) == s
  {
    TrimStartNoSpace(s);
  }

  /** The column stores exactly an amount written with two decimals. */
  lemma NumericOfCentsText(c: int)
    requires -(Pow10(12) as int) < c < Pow10(12)
    ensures NumericCents(CentsText(c)) == Cents(c)
  {
    var m: nat := if c < 0 then -c else c;
    NumericOfDecimalText(Decimal(c < 0, m, 2), m);
  }

  lemma MulAtLeastOne(a: nat, p: nat)
    requires p >= 1
    ensures a <= a * p
  {
  }

  /** A bulk-imported amount with at most two decimals reaches the column unchanged: its
      re-serialised spelling is read back as the same number of cents. */
  lemma ImportedCents(c: int)
    requires -(Pow10(12) as int) < c < Pow10(12)
    ensures AmountText(CentsText(c)).Some?
    ensures NumericCents(AmountText(CentsText(c)).value) == Cents(c)
  {
    var m: nat := if c < 0 then -c else c;
    var d := Decimal(c < 0, m, 2);
    assert ParseFloat(CentsText(c)) == Number(d) by { ParseDecimalText(d); }
    var n := Normalize(d);
    assert InModel(n) by {
      MulAtLeastOne(n.mantissa, Pow10(2 - n.scale));
      assert Pow10(15) == 1000 * Pow10(12);
    }
    assert AmountText(CentsText(c)) == Some(DecimalText(n));
    NumericOfDecimalText(n, m);
  }

  /** Reading a spelling with at most two decimals into the column gives the cents it
      denotes. */
  lemma NumericOfDecimalText(n: Decimal, m: nat)
    requires n.scale <= 2 && n.mantissa * Pow10(2 - n.scale) == m
    requires m < Pow10(12)
    ensures NumericCents(DecimalText(n)) == Cents(if n.negative then -(m as int) else m)
  {
    var text := DecimalText(n);
    DecimalTextScan(n);
    assert Trim(text) == text by { TrimNoSpace(text); }
    var sc := Scan(SignStripped(text));
    assert RoundToCents(DigitsValue(sc.0 + sc.1), |sc.1|) == m by {
      RoundWholeCents(n.mantissa, n.scale);
    }
    NumericOfParts(text, m);
  }

  lemma RoundWholeCents(m: nat, scale: nat)
    requires scale <= 2
    ensures RoundToCents(m, scale) == m * Pow10(2 - scale)
  {
  }

  lemma NumericOfParts(s: string, c: nat)
    requires s != [] && Trim(s) == s
    requires var sc := Scan(SignStripped(s));
      sc.0 != [] && sc.2 == [] && AllDigits(sc.0 + sc.1) && RoundToCents(DigitsValue(sc.0 + sc.1), |sc.1|) == c
    requires c < Pow10(12)
    ensures NumericCents(s) == Cents(if s[0] == '-' then -(c as int) else c)
  {
  }
}
