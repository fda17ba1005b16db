/**
 * The money column of the report (app/services/json_utils.py:74-82):
 * `f"R$ {v:,.2f}"`, then ',' and '.' swapped through a placeholder 'X',
 * so that 1234.5 is shown the Brazilian way, "R$ 1.234,50".
 *
 * A finite value is taken as a whole number of cents, that is, after the
 * rounding to two decimals that `.2f` performs.
 */
module Currency {
  import opened Text

  /** What `float(value)` produced: a finite number of cents, NaN or an infinity. */
  datatype Amount = Finite(cents: int) | NaN | Infinity(negative: bool)

  /** Exactly two digits, with a leading zero when needed. */
  function Pad2(n: nat): (r: string)
    requires n < 100
    ensures |r| == 2 && IsDigit(r[0]) && IsDigit(r[1])
  {
    [DigitChar(n / 10), DigitChar(n % 10)]
  }

  /** Exactly three digits, with leading zeros when needed. */
  function Pad3(n: nat): (r: string)
    requires n < 1000
    ensures |r| == 3 && forall i :: 0 <= i < 3 ==> IsDigit(r[i])
  {
    [DigitChar(n / 100), DigitChar(n / 10 % 10), DigitChar(n % 10)]
  }

  /** The decimal digits of `n` in groups of three from the right, the groups joined by `sep`. */
  function Grouped(n: nat, sep: char): string
    decreases n
  {
    if n < 1000 then NatToString(n) else Grouped(n / 1000, sep) + [sep] + Pad3(n % 1000)
  }

  function Sign(negative: bool): string {
    if negative then "-" else ""
  }

  /** `f"{v:,.2f}"`: ',' between thousands, '.' before the two decimals. */
  function Fixed2(a: Amount): string {
    match a
    case Finite(c) =>
      var m := if c < 0 then -c else c;
      Sign(c < 0) + Grouped(m / 100, ',') + "." + Pad2(m % 100)
    case NaN => "nan"
    case Infinity(negative) => Sign(negative) + "inf"
  }

  /** `.replace(",", "X").replace(".", ",").replace("X", ".")`. */
  function Swap(s: string): string {
    Replace(Replace(Replace(s, ",", "X"), ".", ","), "X", ".")
  }

  /** The value shown after "Valor final" when `float(value)` succeeds. */
  function Valor(a: Amount): string {
    Swap("R$ " + Fixed2(a))
  }

  /**
   * Reference definition: "R$ ", then a minus sign for a negative amount,
   * the whole part with '.' between thousands, ',' and two decimals.
   */
  function BrMoney(cents: int): string {
    "R$ " + BrAmount(cents)
  }

  function BrAmount(cents: int): string {
    var m := if cents < 0 then -cents else cents;
    Sign(cents < 0) + Grouped(m / 100, '.') + "," + Pad2(m % 100)
  }

  // ---------------------------------------------------------------------
  // The separator swap
  // ---------------------------------------------------------------------

  function SwapChar(c: char): char {
    if c == ',' then '.' else if c == '.' then ',' else c
  }

  /** Every character swapped on its own. */
  function SwapEach(s: string): (r: string)
    ensures |r| == |s| && forall i :: 0 <= i < |s| ==> r[i] == SwapChar(s[i])
  {
    seq(|s|, i requires 0 <= i < |s| => SwapChar(s[i]))
  }

  /** On a string without the placeholder, the three replaces swap ',' and '.' and touch nothing else. */
  lemma SwapIsSwapEach(s: string)
    requires 'X' !in s
    ensures Swap(s) == SwapEach(s)
  {
    var r1 := Replace(s, ",", "X");
    var r2 := Replace(r1, ".", ",");
    ReplaceCharByChar(s, ',', 'X');
    ReplaceCharByChar(r1, '.', ',');
    ReplaceCharByChar(r2, 'X', '.');
  }

  /** The swap is its own inverse on strings without the placeholder. */
  lemma SwapInvolution(s: string)
    requires 'X' !in s
    ensures 'X' !in Swap(s)
    ensures Swap(Swap(s)) == s
  {
    SwapIsSwapEach(s);
    var t := SwapEach(s);
    assert forall i :: 0 <= i < |t| ==> t[i] != 'X';
    SwapIsSwapEach(t);
  }

  /** With a placeholder in the input the swap is not its own inverse. */
  lemma SwapWithPlaceholder()
    ensures Swap("X") == "." && Swap(Swap("X")) == ","
  {
    ReplaceAbsent("X", ',', "X");
    ReplaceAbsent("X", '.', ",");
    assert Replace("X", "X", ".") == ".";
    ReplaceAbsent(".", ',', "X");
    assert Replace(".", ".", ",") == ",";
    ReplaceAbsent(",", 'X', ".");
  }

  lemma SwapEachAppend(a: string, b: string)
    ensures SwapEach(a + b) == SwapEach(a) + SwapEach(b)
  {
  }

  lemma SwapEachDigits(s: string)
    requires forall i :: 0 <= i < |s| ==> IsDigit(s[i])
    ensures SwapEach(s) == s
  {
  }

  /** Swapping the separators of ','-grouped digits gives '.'-grouped digits. */
  lemma {:induction false} SwapGrouped(n: nat)
    ensures SwapEach(Grouped(n, ',')) == Grouped(n, '.')
    decreases n
  {
    if n < 1000 {
      SwapEachDigits(NatToString(n));
    } else {
      SwapGrouped(n / 1000);
      SwapEachAppend(Grouped(n / 1000, ',') + [','], Pad3(n % 1000));
      SwapEachAppend(Grouped(n / 1000, ','), [',']);
      SwapEachDigits(Pad3(n % 1000));
    }
  }

  lemma NoPlaceholderInDigits(s: string)
    requires forall i :: 0 <= i < |s| ==> IsDigit(s[i])
    ensures 'X' !in s
  {
  }

  lemma {:induction false} NoPlaceholderInGrouped(n: nat)
    ensures 'X' !in Grouped(n, ',')
    decreases n
  {
    if n < 1000 {
      NoPlaceholderInDigits(NatToString(n));
    } else {
      NoPlaceholderInGrouped(n / 1000);
      NoPlaceholderInDigits(Pad3(n % 1000));
    }
  }

  lemma SwapEachFixes(s: string)
    requires ',' !in s && '.' !in s
    ensures SwapEach(s) == s
  {
  }

  /** A finite amount is shown exactly as the Brazilian reference writes it. */
  lemma ValorIsBrMoney(cents: int)
    ensures Valor(Finite(cents)) == BrMoney(cents)
  {
    var m := if cents < 0 then -cents else cents;
    var sign := Sign(cents < 0);
    var g := Grouped(m / 100, ',');
    var p := Pad2(m % 100);
    var f := Fixed2(Finite(cents));
    assert f == sign + g + "." + p;
    assert 'X' !in "R$ " + f by {
      NoPlaceholderInGrouped(m / 100);
      NoPlaceholderInDigits(p);
    }
    calc {
      Valor(Finite(cents));
      { SwapIsSwapEach("R$ " + f); }
      SwapEach("R$ " + f);
      { SwapEachAppend("R$ ", f); SwapEachFixes("R$ "); }
      "R$ " + SwapEach(sign + g + "." + p);
      { SwapEachAppend(sign + g + ".", p); SwapEachDigits(p); }
      "R$ " + (SwapEach(sign + g + ".") + p);
      { SwapEachAppend(sign + g, "."); }
      "R$ " + (SwapEach(sign + g) + "," + p);
      { SwapEachAppend(sign, g); SwapEachFixes(sign); SwapGrouped(m / 100); }
      "R$ " + BrAmount(cents);
    }
  }

  /** A string with no separator and no placeholder is left as it is. */
  lemma SwapFixes(s: string)
    requires ',' !in s && '.' !in s && 'X' !in s
    ensures Swap(s) == s
  {
    SwapIsSwapEach(s);
    SwapEachFixes(s);
  }

  /** NaN and the infinities pass the swap untouched: "R$ nan", "R$ inf", "R$ -inf". */
  lemma ValorNotFinite(a: Amount)
    requires !a.Finite?
    ensures Valor(a) == "R$ " + Fixed2(a)
  {
    var s := "R$ " + Fixed2(a);
    assert s == "R$ nan" || s == "R$ inf" || s == "R$ -inf";
    assert ',' !in s && '.' !in s && 'X' !in s;
    SwapFixes(s);
  }

  // ---------------------------------------------------------------------
  // Reading the amount back
  // ---------------------------------------------------------------------

  lemma NatToStringUnfold(n: nat)
    requires n >= 10
    ensures NatToString(n) == NatToString(n / 10) + [DigitChar(n % 10)]
  {
  }

  lemma ThousandsArithmetic(n: nat)
    ensures n / 10 / 10 == n / 100 && n / 100 / 10 == n / 1000
    ensures n % 1000 / 100 == n / 100 % 10 && n % 1000 / 10 % 10 == n / 10 % 10 && n % 1000 % 10 == n % 10
  {
    var q, r := n / 1000, n % 1000;
    assert n == 1000 * q + r;
    assert n / 10 == 100 * q + r / 10;
    assert n / 100 == 10 * q + r / 100;
  }

  /** `str(n)` for n of four digits or more is `str(n // 1000)` followed by the last three digits. */
  lemma NatToStringThousands(n: nat)
    requires n >= 1000
    ensures NatToString(n) == NatToString(n / 1000) + Pad3(n % 1000)
  {
    ThousandsArithmetic(n);
    var a, b, c := DigitChar(n / 100 % 10), DigitChar(n / 10 % 10), DigitChar(n % 10);
    assert Pad3(n % 1000) == [a, b, c];
    calc {
      NatToString(n);
      { NatToStringUnfold(n); }
      NatToString(n / 10) + [c];
      { NatToStringUnfold(n / 10); }
      NatToString(n / 100) + [b] + [c];
      { NatToStringUnfold(n / 100); }
      NatToString(n / 1000) + [a] + [b] + [c];
      NatToString(n / 1000) + [a, b, c];
    }
  }

  lemma DigitsOnly(s: string)
    requires forall i :: 0 <= i < |s| ==> IsDigit(s[i])
    ensures Filter(IsDigit, s) == s
  {
    FilterKeepsPassing(IsDigit, s);
  }

  lemma FilterNonDigit(c: char)
    requires !IsDigit(c)
    ensures Filter(IsDigit, [c]) == []
  {
  }

  /** Removing the separators from grouped digits gives `str(n)`. */
  lemma {:induction false} GroupedDigits(n: nat, sep: char)
    requires !IsDigit(sep)
    ensures Filter(IsDigit, Grouped(n, sep)) == NatToString(n)
    decreases n
  {
    if n < 1000 {
      DigitsOnly(NatToString(n));
    } else {
      var g, p := Grouped(n / 1000, sep), Pad3(n % 1000);
      calc {
        Filter(IsDigit, Grouped(n, sep));
        Filter(IsDigit, g + [sep] + p);
        { FilterAppend(IsDigit, g + [sep], p); DigitsOnly(p); }
        Filter(IsDigit, g + [sep]) + p;
        { FilterAppend(IsDigit, g, [sep]); FilterNonDigit(sep); }
        Filter(IsDigit, g) + [] + p;
        { GroupedDigits(n / 1000, sep); }
        NatToString(n / 1000) + [] + p;
        { NatToStringThousands(n); }
        NatToString(n);
      }
    }
  }

  lemma DigitsValueTwoMore(a: string, b: string)
    requires forall i :: 0 <= i < |a| ==> IsDigit(a[i])
    requires |b| == 2 && IsDigit(b[0]) && IsDigit(b[1])
    ensures forall i :: 0 <= i < |a + b| ==> IsDigit((a + b)[i])
    ensures DigitsValue(a + b) == DigitsValue(a) * 100 + DigitValue(b[0]) * 10 + DigitValue(b[1])
  {
    var ab := a + b;
    assert ab[..|ab| - 1] == a + [b[0]];
    assert (a + [b[0]])[..|a|] == a;
  }

  lemma NoDigitsIn(s: string)
    requires forall i :: 0 <= i < |s| ==> !IsDigit(s[i])
    ensures Filter(IsDigit, s) == []
  {
    if s != [] {
      NoDigitsIn(s[1..]);
    }
  }

  lemma NoDigitsInPrefix()
    ensures Filter(IsDigit, "R$ ") == []
  {
    NoDigitsIn("R$ ");
  }

  /** Digits kept from sign, whole part, separator and decimals: those of the whole part, then the decimals. */
  lemma DigitsAround(sign: string, whole: string, sep: string, decimals: string)
    requires Filter(IsDigit, sign) == [] && Filter(IsDigit, sep) == []
    requires Filter(IsDigit, decimals) == decimals
    ensures Filter(IsDigit, sign + whole + sep + decimals) == Filter(IsDigit, whole) + decimals
  {
    FilterAppend(IsDigit, sign + whole + sep, decimals);
    FilterAppend(IsDigit, sign + whole, sep);
    FilterAppend(IsDigit, sign, whole);
  }

  lemma BrAmountDigits(cents: int)
    ensures var m := if cents < 0 then -cents else cents;
      Filter(IsDigit, BrAmount(cents)) == NatToString(m / 100) + Pad2(m % 100)
  {
    var m := if cents < 0 then -cents else cents;
    NoDigitsIn(Sign(cents < 0));
    FilterNonDigit(',');
    DigitsOnly(Pad2(m % 100));
    GroupedDigits(m / 100, '.');
    DigitsAround(Sign(cents < 0), Grouped(m / 100, '.'), ",", Pad2(m % 100));
  }

  /** The digits of the shown amount are those of the whole part, then the two decimals. */
  lemma BrMoneyDigitString(cents: int)
    ensures var m := if cents < 0 then -cents else cents;
      Filter(IsDigit, BrMoney(cents)) == NatToString(m / 100) + Pad2(m % 100)
  {
    FilterAppend(IsDigit, "R$ ", BrAmount(cents));
    NoDigitsInPrefix();
    BrAmountDigits(cents);
  }

  /** The digits of the shown amount spell its absolute value in cents. */
  lemma BrMoneyDigits(cents: int)
    ensures var d := Filter(IsDigit, BrMoney(cents));
      && (forall i :: 0 <= i < |d| ==> IsDigit(d[i]))
      && DigitsValue(d) == if cents < 0 then -cents else cents
  {
    var m := if cents < 0 then -cents else cents;
    BrMoneyDigitString(cents);
    DigitsValueTwoMore(NatToString(m / 100), Pad2(m % 100));
    NatToStringRoundTrip(m / 100);
  }

  /** The minus sign appears exactly for negative amounts. */
  lemma {:induction false} BrMoneySign(cents: int)
    ensures '-' in BrMoney(cents) <==> cents < 0
  {
    var m := if cents < 0 then -cents else cents;
    var g := Grouped(m / 100, '.');
    var p := Pad2(m % 100);
    GroupedNoMinus(m / 100);
    assert '-' !in p;
    assert BrMoney(cents) == "R$ " + (Sign(cents < 0) + g + "," + p);
  }

  lemma {:induction false} GroupedNoMinus(n: nat)
    ensures '-' !in Grouped(n, '.')
    decreases n
  {
    if n >= 1000 {
      GroupedNoMinus(n / 1000);
    }
  }

  /** Different amounts are shown differently. */
  lemma BrMoneyInjective(a: int, b: int)
    requires BrMoney(a) == BrMoney(b)
    ensures a == b
  {
    BrMoneyDigits(a);
    BrMoneyDigits(b);
    BrMoneySign(a);
    BrMoneySign(b);
  }

  /** 45.0 is shown as "R$ 45,00". */
  lemma ValorExample()
    ensures Valor(Finite(4500)) == "R$ 45,00"
  {
    ValorIsBrMoney(4500);
    assert NatToString(45) == "45" by {
      NatToStringUnfold(45);
    }
    assert Pad2(0) == "00";
  }

  lemma GroupedExample()
    ensures Grouped(1234, '.') == "1.234"
  {
    assert Pad3(234) == "234";
    assert NatToString(1) == "1";
  }

  /** 1234.56 is written "R$ 1.234,56" (and so shown, by ValorIsBrMoney). */
  lemma BrMoneyThousandsExample()
    ensures BrMoney(123456) == "R$ 1.234,56"
  {
    GroupedExample();
    assert Pad2(56) == "56";
    assert BrAmount(123456) == "1.234,56";
  }
}
