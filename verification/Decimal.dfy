/** Decimal printing and reading of naturals, as the formatting macros do it. */
module Decimal {
  import opened Wrappers

  function Digit(d: nat): char
    requires d < 10
  {
    '0' + (d as char)
  }

  predicate IsDigit(c: char) {
    '0' <= c <= '9'
  }

  function DigitValue(c: char): nat
    requires IsDigit(c)
  {
    (c - '0') as nat
  }

  ghost predicate AllDigits(s: string) {
    forall i | 0 <= i < |s| :: IsDigit(s[i])
  }

  /** Decimal text, no sign and no leading zeros. */
  function Print(n: nat): (s: string)
    ensures |s| >= 1 && AllDigits(s)
    ensures n > 0 ==> s[0] != '0'
  {
    if n < 10 then [Digit(n)] else Print(n / 10) + [Digit(n % 10)]
  }

  /** The number a digit string spells, leading zeros allowed. */
  function Value(s: string): nat
    requires AllDigits(s)
  {
    if s == "" then 0 else Value(s[..|s| - 1]) * 10 + DigitValue(s[|s| - 1])
  }

  function Zeros(n: nat): string {
    seq(n, _ => '0')
  }

  /** `{:0width}`: padded on the left to `width`, never truncated. */
  function Padded(n: nat, width: nat): (s: string)
    ensures |s| >= width && |s| >= |Print(n)| && AllDigits(s)
  {
    var digits := Print(n);
    if |digits| >= width then digits else Zeros(width - |digits|) + digits
  }

  lemma {:induction false} ValueOfPrint(n: nat)
    ensures Value(Print(n)) == n
  {
    if n >= 10 {
      ValueOfPrint(n / 10);
      assert Print(n)[..|Print(n)| - 1] == Print(n / 10);
    }
  }

  lemma {:induction false} ValueIgnoresZeros(k: nat, s: string)
    requires AllDigits(s)
    ensures AllDigits(Zeros(k) + s) && Value(Zeros(k) + s) == Value(s)
    decreases k + |s|
  {
    var t := Zeros(k) + s;
    if s == "" {
      if k > 0 {
        assert t[..|t| - 1] == Zeros(k - 1) + "";
        ValueIgnoresZeros(k - 1, "");
      }
    } else {
      assert t[..|t| - 1] == Zeros(k) + s[..|s| - 1];
      ValueIgnoresZeros(k, s[..|s| - 1]);
    }
  }

  lemma ValueOfPadded(n: nat, width: nat)
    ensures Value(Padded(n, width)) == n
  {
    ValueOfPrint(n);
    if |Print(n)| < width { ValueIgnoresZeros(width - |Print(n)|, Print(n)); }
  }

  function Pow10(k: nat): (r: nat)
    ensures r >= 1
  {
    if k == 0 then 1 else 10 * Pow10(k - 1)
  }

  /** Printing needs as many digits as the magnitude asks for, and no more. */
  lemma {:induction false} PrintLength(n: nat, k: nat)
    requires k >= 1
    ensures |Print(n)| <= k <==> n < Pow10(k)
  {
    if k > 1 && n >= 10 {
      PrintLength(n / 10, k - 1);
      assert n < 10 * Pow10(k - 1) <==> n / 10 < Pow10(k - 1);
    } else {
      assert k > 1 ==> Pow10(k) == 10 * Pow10(k - 1);
    }
  }

  lemma ShiftDigit(x: nat, y: nat, v: nat, d: nat)
    ensures (x * y + v) * 10 + d == x * (10 * y) + (v * 10 + d)
  {
  }

  /** Reading two digit strings in a row shifts the first by the second's length. */
  lemma {:induction false} ValueAppend(a: string, b: string)
    requires AllDigits(a) && AllDigits(b)
    ensures AllDigits(a + b) && Value(a + b) == Value(a) * Pow10(|b|) + Value(b)
    decreases |b|
  {
    if b == "" {
      assert a + b == a;
      assert Value(a) * Pow10(0) == Value(a);
    } else {
      var c, d := b[..|b| - 1], DigitValue(b[|b| - 1]);
      ValueAppend(a, c);
      assert Value(a + b) == Value(a + c) * 10 + d by {
        assert (a + b)[..|a + b| - 1] == a + c;
      }
      ShiftDigit(Value(a), Pow10(|c|), Value(c), d);
    }
  }

  lemma {:induction false} ValueOfZeros(k: nat)
    ensures AllDigits(Zeros(k)) && Value(Zeros(k)) == 0
  {
    ValueIgnoresZeros(k, "");
    assert Zeros(k) + "" == Zeros(k);
  }

  function Unsigned(s: string): string {
    if s != "" && s[0] == '+' then s[1..] else s
  }

  /** `str::parse` for an unsigned integer below `limit`: an optional `+`, then
      one or more digits, refused on overflow. */
  function ParseUnsigned(s: string, limit: nat): Option<nat> {
    var digits := Unsigned(s);
    if digits == "" || exists i | 0 <= i < |digits| :: !IsDigit(digits[i]) then None
    else if Value(digits) < limit then Some(Value(digits)) else None
  }

  lemma ParseOfPrint(n: nat, limit: nat)
    ensures ParseUnsigned(Print(n), limit) == if n < limit then Some(n) else None
  {
    ValueOfPrint(n);
  }

  lemma PrintShifts(n: nat, c: char)
    requires IsDigit(c)
    ensures n == 0 ==> Print(n * 10 + DigitValue(c)) == [c]
    ensures n > 0 ==> Print(n * 10 + DigitValue(c)) == Print(n) + [c]
  {
    assert Digit(DigitValue(c)) == c;
    assert (n * 10 + DigitValue(c)) / 10 == n && (n * 10 + DigitValue(c)) % 10 == DigitValue(c);
  }

  lemma OneMore(n: nat, k: nat, c: char) returns (j: nat)
    requires IsDigit(c)
    ensures (Zeros(k) + Print(n)) + [c] == Zeros(j) + Print(n * 10 + DigitValue(c))
    ensures j == if n == 0 then k + 1 else k
  {
    PrintShifts(n, c);
    if n == 0 {
      j := k + 1;
      assert Zeros(k) + "0" == Zeros(k + 1);
    } else {
      j := k;
      assert Zeros(k) + (Print(n) + [c]) == (Zeros(k) + Print(n)) + [c];
    }
  }

  lemma ValueSnoc(init: string, last: char)
    requires AllDigits(init) && IsDigit(last)
    ensures AllDigits(init + [last]) && Value(init + [last]) == Value(init) * 10 + DigitValue(last)
  {
    assert (init + [last])[..|init|] == init;
  }

  /** Any digits are the number they spell, printed, behind leading zeros. */
  lemma {:induction false} PrintOfValue(s: string) returns (k: nat)
    requires AllDigits(s) && s != ""
    ensures s == Zeros(k) + Print(Value(s))
  {
    var init, last := s[..|s| - 1], s[|s| - 1];
    assert s == init + [last];
    ValueSnoc(init, last);
    if init == "" {
      k := 0;
      PrintShifts(0, last);
    } else {
      var j := PrintOfValue(init);
      k := OneMore(Value(init), j, last);
    }
  }

  lemma LeadingZeros(k: nat, n: nat)
    ensures k > 0 ==> |Zeros(k) + Print(n)| > 1 && (Zeros(k) + Print(n))[0] == '0'
  {
  }

  lemma SpellsIff(digits: string, n: nat)
    ensures (AllDigits(digits) && digits != "" && Value(digits) == n)
       <==> exists k: nat :: digits == Zeros(k) + Print(n)
  {
    if AllDigits(digits) && digits != "" && Value(digits) == n {
      var k := PrintOfValue(digits);
    }
    if k: nat :| digits == Zeros(k) + Print(n) {
      ValueOfPrint(n);
      ValueIgnoresZeros(k, Print(n));
    }
  }

  lemma UnsignedIs(s: string, text: string)
    requires text != "" && text[0] != '+'
    ensures Unsigned(s) == text <==> s == text || s == "+" + text
  {
    assert s != "" && s[0] == '+' ==> s == "+" + s[1..];
    assert ("+" + text)[1..] == text;
  }

  /** What is read is the printed number, with an optional `+` and leading zeros. */
  lemma ParsesExactly(s: string, limit: nat, n: nat)
    ensures ParseUnsigned(s, limit) == Some(n) <==>
              n < limit && exists k: nat :: s == Zeros(k) + Print(n) || s == "+" + (Zeros(k) + Print(n))
  {
    SpellsIff(Unsigned(s), n);
    forall k: nat ensures Unsigned(s) == Zeros(k) + Print(n)
                     <==> s == Zeros(k) + Print(n) || s == "+" + (Zeros(k) + Print(n))
    {
      var text := Zeros(k) + Print(n);
      assert IsDigit(text[0]);
      UnsignedIs(s, text);
    }
  }

  /** The ten digits, and how they build a number. */
  lemma PrintSpells(n: nat)
    ensures n < 10 ==> Print(n) == ["0123456789"[n]]
    ensures n >= 10 ==> Print(n) == Print(n / 10) + Print(n % 10)
  {
  }
}
