/** `format_zec_decimal`: amounts in base units shown as decimal coins. */
module Amount {
  import opened Wrappers
  import opened Decimal
  import opened Text

  const UNITS: nat := 100_000_000
  const DOT: char := '.'

  function TrimEndZeros(s: string): string {
    if s != "" && s[|s| - 1] == '0' then TrimEndZeros(s[..|s| - 1]) else s
  }

  function FormatZec(zats: nat): string {
    var whole, frac := zats / UNITS, zats % UNITS;
    if frac == 0 then Print(whole)
    else TrimEndZeros(Print(whole) + [DOT] + Padded(frac, 8))
  }

  /** A decimal number of coins with at most eight fraction digits, in base units. */
  function ReadCoins(whole: string, frac: string): Option<nat> {
    if (exists i | 0 <= i < |whole| :: !IsDigit(whole[i]))
       || (exists i | 0 <= i < |frac| :: !IsDigit(frac[i]))
       || whole == "" || |frac| > 8 then None
    else Some(Value(whole) * UNITS + Value(frac) * Pow10(8 - |frac|))
  }

  function ReadZec(s: string): Option<nat> {
    var i := IndexOf(s, DOT);
    if i == |s| then ReadCoins(s, "")
    else if i + 1 == |s| then None
    else ReadCoins(s[..i], s[i + 1..])
  }

  /** Trimming stops inside the fraction, at its last non-zero digit. */
  lemma {:induction false} TrimFraction(w: string, f: string) returns (g: string)
    requires AllDigits(f) && Value(f) != 0
    ensures g != "" && g[|g| - 1] != '0' && |g| <= |f| && f == g + Zeros(|f| - |g|)
    ensures TrimEndZeros(w + [DOT] + f) == w + [DOT] + g
    decreases |f|
  {
    var s := w + [DOT] + f;
    if f[|f| - 1] == '0' {
      var init := f[..|f| - 1];
      assert s[..|s| - 1] == w + [DOT] + init;
      g := TrimFraction(w, init);
      assert f == init + ['0'];
    } else {
      g := f;
      assert Zeros(0) == "";
    }
  }

  lemma SplitAtDot(w: string, g: string)
    requires AllDigits(w) && g != ""
    ensures IndexOf(w + [DOT] + g, DOT) == |w|
    ensures (w + [DOT] + g)[..|w|] == w && (w + [DOT] + g)[|w| + 1..] == g
  {
    var s := w + [DOT] + g;
    assert s[|w|] == DOT;
    assert forall j | 0 <= j < |w| :: s[j] == w[j] && IsDigit(w[j]);
  }

  /** The printed fraction: one to eight digits, the last one not zero. */
  lemma Fraction(w: string, frac: nat) returns (g: string)
    requires 0 < frac < UNITS
    ensures 1 <= |g| <= 8 && AllDigits(g) && g[|g| - 1] != '0'
    ensures TrimEndZeros(w + [DOT] + Padded(frac, 8)) == w + [DOT] + g
    ensures Value(g) * Pow10(8 - |g|) == frac
  {
    var f := Padded(frac, 8);
    ValueOfPadded(frac, 8);
    EightDigits(frac);
    g := TrimFraction(w, f);
    TrimmedValue(g, |f| - |g|);
  }

  /** Zeros at the end only scale a digit string. */
  lemma TrimmedValue(g: string, n: nat)
    requires AllDigits(g + Zeros(n))
    ensures AllDigits(g) && Value(g + Zeros(n)) == Value(g) * Pow10(n)
  {
    assert AllDigits(g) by { assert forall i | 0 <= i < |g| :: g[i] == (g + Zeros(n))[i]; }
    ValueAppend(g, Zeros(n));
    ValueOfZeros(n);
  }

  lemma EightDigits(frac: nat)
    requires frac < UNITS
    ensures |Padded(frac, 8)| == 8
  {
    PrintLength(frac, 8);
    assert Pow10(4) == 10_000 && Pow10(8) == 10_000 * Pow10(4);
  }

  /** What is printed, spelled out: whole coins alone, or whole coins, a point,
      and a fraction of one to eight digits whose last digit is not zero. */
  lemma FormatShape(zats: nat) returns (g: string)
    ensures zats % 100_000_000 == 0 ==> FormatZec(zats) == Print(zats / 100_000_000)
    ensures zats % 100_000_000 != 0 ==>
              && 1 <= |g| <= 8 && AllDigits(g) && g[|g| - 1] != '0'
              && FormatZec(zats) == Print(zats / 100_000_000) + "." + g
              && Value(g) * Pow10(8 - |g|) == zats % 100_000_000
  {
    g := "";
    if zats % UNITS != 0 { g := Fraction(Print(zats / UNITS), zats % UNITS); }
  }

  /** Reading the printed amount back gives the amount. */
  lemma FormatReadsBack(zats: nat)
    ensures ReadZec(FormatZec(zats)) == Some(zats)
  {
    var whole := Print(zats / UNITS);
    ValueOfPrint(zats / UNITS);
    var g := FormatShape(zats);
    if zats % UNITS == 0 {
      NoDot(whole);
      assert ReadCoins(whole, "") == Some(Value(whole) * UNITS);
    } else {
      SplitAtDot(whole, g);
      assert ReadCoins(whole, g) == Some(zats);
    }
  }

  lemma NoDot(w: string)
    requires AllDigits(w)
    ensures IndexOf(w, DOT) == |w|
  {
    assert forall j | 0 <= j < |w| :: IsDigit(w[j]);
  }

  /** So two amounts never print alike. */
  lemma FormatIsInjective(a: nat, b: nat)
    requires FormatZec(a) == FormatZec(b)
    ensures a == b
  {
    FormatReadsBack(a);
    FormatReadsBack(b);
  }
}
