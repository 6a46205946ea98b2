/** RevisionResultAdmin.difference_display of sklad/admin.py: the difference
    column of the result list, in green with a plus sign when counted stock
    exceeds the ledger, in red with its minus sign when it falls short, and
    a grey "0" when they agree. Amounts are two-place decimals, held here as
    whole cents. */
module DifferenceDisplay {

  datatype Tone = Green | Red | Grey

  /** The text of the cell and its colour; the HTML around them is left
      out. */
  datatype Cell = Cell(text: string, tone: Tone)

  function Digit(d: nat): char
    requires d < 10
  {
    ('0' as int + d) as char
  }

  predicate IsDigit(c: char)
  {
    '0' <= c <= '9'
  }

  function DigitValue(c: char): nat
  {
    if IsDigit(c) then c as int - '0' as int else 0
  }

  /** The decimal digits of `n`, without leading zeros. */
  function NatDigits(n: nat): string
  {
    if n < 10 then [Digit(n)] else NatDigits(n / 10) + [Digit(n % 10)]
  }

  /** The number a string of decimal digits stands for. */
  function DigitsValue(s: string): nat
  {
    if s == [] then 0 else DigitsValue(s[..|s| - 1]) * 10 + DigitValue(s[|s| - 1])
  }

  /** str() of a two-place Decimal: the sign when negative, the whole part,
      a point and exactly two places. */
  function Amount(cents: int): string
  {
    var m := if cents < 0 then -cents else cents;
    (if cents < 0 then "-" else "") + NatDigits(m / 100) + "." + [Digit(m % 100 / 10), Digit(m % 10)]
  }

  /** difference_display */
  function Display(difference: int): Cell
  {
    if difference > 0 then Cell("+" + Amount(difference), Green)
    else if difference < 0 then Cell(Amount(difference), Red)
    else Cell("0", Grey)
  }

  /** Reads an amount back in cents: an optional sign, the whole part, a
      point and two places. */
  function AmountValue(s: string): int
  {
    if s == "0" then 0
    else if s != [] && s[0] == '+' then Unsigned(s[1..])
    else if s != [] && s[0] == '-' then -(Unsigned(s[1..]) as int)
    else Unsigned(s)
  }

  function Unsigned(s: string): nat
  {
    if |s| < 3 then 0 else DigitsValue(s[..|s| - 3]) * 100 + DigitsValue(s[|s| - 2..])
  }

  // ---------------------------------------------------------------- properties

  lemma {:induction false} DigitsRoundTrip(n: nat)
    ensures NatDigits(n) != [] && DigitsValue(NatDigits(n)) == n
    ensures forall j :: 0 <= j < |NatDigits(n)| ==> IsDigit(NatDigits(n)[j])
  {
    if n >= 10 {
      DigitsRoundTrip(n / 10);
      var s := NatDigits(n);
      assert s[..|s| - 1] == NatDigits(n / 10);
    } else {
      assert DigitsValue([Digit(n)]) == DigitsValue([]) * 10 + n;
    }
  }

  lemma TwoPlaces(p: nat)
    requires p < 100
    ensures DigitsValue([Digit(p / 10), Digit(p % 10)]) == p
  {
    var s := [Digit(p / 10), Digit(p % 10)];
    assert s[..1] == [Digit(p / 10)];
    assert DigitsValue(s[..1]) == DigitsValue([]) * 10 + p / 10;
  }

  lemma UnsignedAmount(m: nat)
    ensures Unsigned(NatDigits(m / 100) + "." + [Digit(m % 100 / 10), Digit(m % 10)]) == m
  {
    var q, p := m / 100, m % 100;
    assert m % 10 == p % 10;
    var w := NatDigits(q);
    var places := [Digit(p / 10), Digit(p % 10)];
    var s := w + "." + places;
    DigitsRoundTrip(q);
    TwoPlaces(p);
    assert s[..|s| - 3] == w;
    assert s[|s| - 2..] == places;
    assert m == q * 100 + p;
  }

  /** The cell shows the sign of the difference: a leading '+' exactly when
      it is positive, a leading '-' exactly when it is negative, and "0"
      exactly when it is zero; green, red and grey go with them. */
  lemma DisplaySign(difference: int)
    ensures var c := Display(difference);
      && c.text != []
      && (c.text[0] == '+' <==> difference > 0)
      && (c.text[0] == '-' <==> difference < 0)
      && (c.text == "0" <==> difference == 0)
      && (c.tone == Green <==> difference > 0)
      && (c.tone == Red <==> difference < 0)
  {
    var m := if difference < 0 then -difference else difference;
    DigitsRoundTrip(m / 100);
    var c := Display(difference);
    if difference >= 0 {
      var u := NatDigits(m / 100) + "." + [Digit(m % 100 / 10), Digit(m % 10)];
      assert IsDigit(u[0]);
      if difference > 0 {
        assert c.text == "+" + u;
        assert c.text != "0" by { assert |c.text| > 1; }
      }
    } else {
      assert c.text[0] == '-' && |c.text| > 1;
    }
  }

  /** Nothing is lost: the difference can be read back from the cell. */
  lemma DisplayRoundTrip(difference: int)
    ensures AmountValue(Display(difference).text) == difference
  {
    var m := if difference < 0 then -difference else difference;
    var u := NatDigits(m / 100) + "." + [Digit(m % 100 / 10), Digit(m % 10)];
    UnsignedAmount(m);
    DisplaySign(difference);
    if difference > 0 {
      assert Display(difference).text == "+" + u;
      assert ("+" + u)[1..] == u;
    } else if difference < 0 {
      assert Display(difference).text == "-" + u;
      assert ("-" + u)[1..] == u;
    }
  }
}
