/** pd.to_numeric(..., errors="coerce") on one cell: a number stays a number, a missing value
    stays missing, and text becomes the number it spells or missing when it spells none.
    The text grammar accepted here is an optional sign, decimal digits and at most one decimal
    point with at least one digit. */
module Numbers {
  import opened Wrappers

  /** One cell of the provider's table, before coercion. */
  datatype Cell = Num(x: real) | Text(s: string) | Null

  predicate IsDigit(c: char) { '0' <= c <= '9' }

  predicate AllDigits(s: string) { forall i :: 0 <= i < |s| ==> IsDigit(s[i]) }

  function DigitValue(c: char): nat
    requires IsDigit(c)
  {
    c as int - '0' as int
  }

  /** The value of a string of decimal digits, most significant first. */
  function DigitsValue(d: string): nat
    requires AllDigits(d)
  {
    if d == [] then 0 else 10 * DigitsValue(d[..|d| - 1]) + DigitValue(d[|d| - 1])
  }

  function Pow10(n: nat): (r: nat)
    ensures r >= 1
  {
    if n == 0 then 1 else 10 * Pow10(n - 1)
  }

  /** The position of the first '.' in s, or |s| when there is none. */
  function DotIndex(s: string): (k: nat)
    ensures k <= |s|
    ensures k < |s| ==> s[k] == '.'
    ensures forall i :: 0 <= i < k ==> s[i] != '.'
  {
    if s == [] then 0 else if s[0] == '.' then 0 else 1 + DotIndex(s[1..])
  }

  /** Unsigned decimal text: only digits and points, at most one point, at least one digit
      ("12.5", "007", "3." and ".5" qualify; "", "." and "1.2.3" do not). */
  predicate DecimalText(s: string)
  {
    (forall i :: 0 <= i < |s| ==> IsDigit(s[i]) || s[i] == '.')
    && (forall i, j :: 0 <= i < j < |s| && s[i] == '.' ==> s[j] != '.')
    && (exists i :: 0 <= i < |s| && IsDigit(s[i]))
  }

  /** Decimal text is exactly the text that splits at its first point into two digit strings
      that are not both empty. */
  lemma DecimalTextSplits(s: string)
    ensures var k := DotIndex(s);
      var whole, frac := s[..k], if k < |s| then s[k + 1..] else [];
      DecimalText(s) <==> AllDigits(whole) && AllDigits(frac) && |whole| + |frac| > 0
  {
    var k := DotIndex(s);
    var whole, frac := s[..k], if k < |s| then s[k + 1..] else [];
    if DecimalText(s) {
      forall i | 0 <= i < |whole| ensures IsDigit(whole[i]) {
        assert whole[i] == s[i];
      }
      forall m | 0 <= m < |frac| ensures IsDigit(frac[m]) {
        assert frac[m] == s[k + 1 + m];
      }
      var i :| 0 <= i < |s| && IsDigit(s[i]);
      if i < k { assert whole[i] == s[i]; } else { assert frac[i - k - 1] == s[i]; }
    }
    if AllDigits(whole) && AllDigits(frac) && |whole| + |frac| > 0 {
      forall i | 0 <= i < |s| && i != k ensures IsDigit(s[i]) {
        if i < k { assert s[i] == whole[i]; } else { assert s[i] == frac[i - k - 1]; }
      }
      assert if |whole| > 0 then IsDigit(s[0]) else IsDigit(s[k + 1]);
    }
  }

  /** The number with the given whole part and fraction digits. */
  function DecimalValue(whole: nat, frac: string): real
    requires AllDigits(frac)
  {
    whole as real + DigitsValue(frac) as real / Pow10(|frac|) as real
  }

  /** Unsigned decimal text read as whole part, point and fraction digits; anything else is
      missing. ParseUnsignedAcceptsExactly shows that exactly decimal text is read. */
  function ParseUnsigned(s: string): (r: Option<real>)
    ensures r.Some? ==> r.value >= 0.0
    ensures r.Some? ==> forall i :: 0 <= i < |s| ==> IsDigit(s[i]) || s[i] == '.'
    ensures r.Some? ==> exists i :: 0 <= i < |s| && IsDigit(s[i])
  {
    var k := DotIndex(s);
    var whole, frac := s[..k], if k < |s| then s[k + 1..] else [];
    if AllDigits(whole) && AllDigits(frac) && |whole| + |frac| > 0 then
      assert forall i :: 0 <= i < |s| && i != k ==> IsDigit(s[i]) by {
        forall i | 0 <= i < |s| && i != k ensures IsDigit(s[i]) {
          if i < k { assert s[i] == whole[i]; } else { assert s[i] == frac[i - k - 1]; }
        }
      }
      assert if |whole| > 0 then IsDigit(s[0]) else IsDigit(s[k + 1]);
      Some(DecimalValue(DigitsValue(whole), frac))
    else
      None
  }

  /** Signed decimal text as pandas reads it: decimal text, optionally after one "+" or "-";
      a minus negates the value. ParseNumberAcceptsExactly shows which text is read. */
  function ParseNumber(s: string): (r: Option<real>)
    ensures r.Some? ==> forall i :: 0 <= i < |s| ==> IsDigit(s[i]) || s[i] in "+-."
    ensures r.Some? ==> exists i :: 0 <= i < |s| && IsDigit(s[i])
    ensures r.Some? && s != [] && s[0] == '-' ==> r.value <= 0.0
    ensures r.Some? && (s == [] || s[0] != '-') ==> r.value >= 0.0
  {
    if s != [] && (s[0] == '-' || s[0] == '+') then
      var u := ParseUnsigned(s[1..]);
      assert u.Some? ==> forall i :: 1 <= i < |s| ==> s[i] == s[1..][i - 1];
      assert u.Some? ==> exists i :: 1 <= i < |s| && IsDigit(s[i]) by {
        if u.Some? {
          var j :| 0 <= j < |s[1..]| && IsDigit(s[1..][j]);
          assert IsDigit(s[j + 1]);
        }
      }
      match u
      case Some(v) => if s[0] == '-' then Some(-v) else Some(v)
      case None => None
    else ParseUnsigned(s)
  }

  /** Unsigned text is read exactly when it is decimal text. */
  lemma ParseUnsignedAcceptsExactly(s: string)
    ensures ParseUnsigned(s).Some? <==> DecimalText(s)
  {
    DecimalTextSplits(s);
  }

  /** Text is read exactly when it is decimal text, or a sign followed by decimal text. */
  lemma ParseNumberAcceptsExactly(s: string)
    ensures ParseNumber(s).Some? <==> DecimalText(s) || (s != [] && s[0] in "+-" && DecimalText(s[1..]))
  {
    ParseUnsignedAcceptsExactly(s);
    if s != [] {
      ParseUnsignedAcceptsExactly(s[1..]);
    }
  }

  /** Coercion of one cell; None is pandas' NaN. */
  function Coerce(c: Cell): (r: Option<real>)
    ensures c.Num? ==> r == Some(c.x)
    ensures c.Null? ==> r == None
    ensures c.Text? ==> r == ParseNumber(c.s)
  {
    match c
    case Num(x) => Some(x)
    case Text(s) => ParseNumber(s)
    case Null => None
  }

  /** The decimal spelling of a natural number, without leading zeros. */
  function ShowNat(n: nat): (d: string)
    ensures d != [] && AllDigits(d)
  {
    if n < 10 then ['0' + (n as char)] else ShowNat(n / 10) + ['0' + ((n % 10) as char)]
  }

  lemma {:induction false} ShowNatValue(n: nat)
    ensures DigitsValue(ShowNat(n)) == n
  {
    var d := ShowNat(n);
    if n >= 10 {
      assert d[..|d| - 1] == ShowNat(n / 10);
      ShowNatValue(n / 10);
    }
  }

  lemma {:induction false} NoDotInDigits(d: string)
    requires AllDigits(d)
    ensures DotIndex(d) == |d|
  {
    if d != [] {
      NoDotInDigits(d[1..]);
    }
  }

  /** Text holding the decimal spelling of a whole number coerces back to that number. */
  lemma ParseShowNat(n: nat)
    ensures Coerce(Text(ShowNat(n))) == Some(n as real)
  {
    var d := ShowNat(n);
    ShowNatValue(n);
    NoDotInDigits(d);
    assert d[..|d|] == d;
  }

  /** The same with a leading minus or plus sign. */
  lemma ParseSignedShowNat(n: nat)
    ensures Coerce(Text("-" + ShowNat(n))) == Some(-(n as real))
    ensures Coerce(Text("+" + ShowNat(n))) == Some(n as real)
  {
    var d := ShowNat(n);
    ParseShowNat(n);
    assert ("-" + d)[1..] == d;
    assert ("+" + d)[1..] == d;
  }

  /** Text with digits before its first point and digits after it reads as whole part plus
      fraction. */
  lemma UnsignedAt(s: string, k: nat)
    requires 0 < k < |s| && s[k] == '.'
    requires AllDigits(s[..k]) && AllDigits(s[k + 1..])
    ensures ParseUnsigned(s) == Some(DecimalValue(DigitsValue(s[..k]), s[k + 1..]))
  {
    assert forall i :: 0 <= i < k ==> s[i] == s[..k][i];
    assert DotIndex(s) == k;
  }

  lemma UnsignedDecimal(a: nat, d: string)
    requires AllDigits(d)
    ensures ParseUnsigned(ShowNat(a) + "." + d) == Some(DecimalValue(a, d))
  {
    var w := ShowNat(a);
    var s := w + "." + d;
    assert s[|w|] == '.' && s[..|w|] == w && s[|w| + 1..] == d;
    UnsignedAt(s, |w|);
    ShowNatValue(a);
  }

  /** A leading minus negates what the rest of the text reads as. */
  lemma NegatedParse(s: string)
    requires ParseUnsigned(s).Some?
    ensures ParseNumber("-" + s) == Some(-ParseUnsigned(s).value)
  {
    assert ("-" + s)[1..] == s;
  }

  /** Any whole number, a point and any digit string coerce to that number plus the digits'
      value as a fraction, so fractional prices keep every digit. */
  lemma ParseDecimal(a: nat, d: string)
    requires AllDigits(d)
    ensures Coerce(Text(ShowNat(a) + "." + d)) == Some(DecimalValue(a, d))
  {
    var w := ShowNat(a);
    UnsignedDecimal(a, d);
    assert (w + "." + d)[0] == w[0];
  }

  /** The same with a leading minus sign. */
  lemma ParseSignedDecimal(a: nat, d: string)
    requires AllDigits(d)
    ensures Coerce(Text("-" + ShowNat(a) + "." + d)) == Some(-DecimalValue(a, d))
  {
    var s := ShowNat(a) + "." + d;
    UnsignedDecimal(a, d);
    NegatedParse(s);
    assert "-" + ShowNat(a) + "." + d == "-" + s;
  }

  /** Placeholders that providers put in place of a price never coerce to a number. */
  lemma PlaceholdersAreMissing()
    ensures Coerce(Text("N/A")) == None
    ensures Coerce(Text("")) == None
    ensures Coerce(Text(".")) == None
    ensures Coerce(Text("-")) == None
    ensures Coerce(Null) == None
  {
    assert DotIndex(".") == 0;
    assert DotIndex("") == 0;
  }

  /** Decimal fractions are read with their fractional part. */
  lemma ParseFraction()
    ensures Coerce(Text("101.25")) == Some(101.25)
  {
    var s := "101.25";
    assert DotIndex(s[3..]) == 0;
    assert DotIndex(s[2..]) == 1 by { assert s[2..][1..] == s[3..]; }
    assert DotIndex(s[1..]) == 2 by { assert s[1..][1..] == s[2..]; }
    assert DotIndex(s) == 3;
    assert s[..3] == "101" && s[4..] == "25";
    assert DigitsValue("101") == 101 by { assert "101"[..2] == "10" && "10"[..1] == "1"; }
    assert DigitsValue("25") == 25 by { assert "25"[..1] == "2"; }
    assert Pow10(2) == 100;
  }

  lemma ParseSignedFraction()
    ensures Coerce(Text("-.5")) == Some(-0.5)
  {
    assert "-.5"[1..] == ".5";
    assert DotIndex(".5") == 0;
    assert ".5"[..0] == "" && ".5"[1..] == "5";
    assert DigitsValue("5") == 5 by { assert "5"[..0] == ""; }
  }
}
