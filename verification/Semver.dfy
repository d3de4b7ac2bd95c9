/** Versions as Semantic Versioning 2.0.0 writes and orders them, without build
    metadata (a container tag cannot hold the `+` that introduces it). */
module Semver {
  import opened Wrappers
  import opened Text
  import opened Decimal

  datatype Ident = Num(n: nat) | Alnum(s: string)

  datatype Version = Version(major: nat, minor: nat, patch: nat, pre: seq<Ident>)

  const U64: nat := 0x1_0000_0000_0000_0000
  const DOT: char := '.'
  const DASH: char := '-'

  // ----- Precedence, section 11 of Semantic Versioning 2.0.0 -----

  predicate TextLess(a: string, b: string) {
    if b == "" then false
    else if a == "" then true
    else a[0] < b[0] || (a[0] == b[0] && TextLess(a[1..], b[1..]))
  }

  predicate IdentLess(a: Ident, b: Ident) {
    match (a, b)
    case (Num(m), Num(n)) => m < n
    case (Num(_), Alnum(_)) => true
    case (Alnum(_), Num(_)) => false
    case (Alnum(s), Alnum(t)) => TextLess(s, t)
  }

  predicate FieldsLess(a: seq<Ident>, b: seq<Ident>) {
    if b == [] then false
    else if a == [] then true
    else IdentLess(a[0], b[0]) || (a[0] == b[0] && FieldsLess(a[1..], b[1..]))
  }

  /** A release ranks above every pre-release of the same numbers. */
  predicate PreLess(a: seq<Ident>, b: seq<Ident>) {
    if a == [] then false else b == [] || FieldsLess(a, b)
  }

  predicate Less(a: Version, b: Version) {
    || a.major < b.major
    || (a.major == b.major && (
          || a.minor < b.minor
          || (a.minor == b.minor && (
                || a.patch < b.patch
                || (a.patch == b.patch && PreLess(a.pre, b.pre))))))
  }

  predicate AtMost(a: Version, b: Version) {
    a == b || Less(a, b)
  }

  lemma {:induction false} TextOrder(a: string, b: string)
    ensures !TextLess(a, a)
    ensures a == b || TextLess(a, b) || TextLess(b, a)
    ensures !(TextLess(a, b) && TextLess(b, a))
  {
    if a != "" { TextOrder(a[1..], if b == "" then "" else b[1..]); }
    if a != "" && b != "" && a[0] == b[0] {
      assert a[1..] == b[1..] ==> a == [a[0]] + b[1..] == b;
    }
  }

  lemma {:induction false} TextTransitive(a: string, b: string, c: string)
    requires TextLess(a, b) && TextLess(b, c)
    ensures TextLess(a, c)
  {
    if a != "" && a[0] == b[0] == c[0] { TextTransitive(a[1..], b[1..], c[1..]); }
  }

  lemma IdentOrder(a: Ident, b: Ident)
    ensures !IdentLess(a, a)
    ensures a == b || IdentLess(a, b) || IdentLess(b, a)
    ensures !(IdentLess(a, b) && IdentLess(b, a))
  {
    if a.Alnum? { TextOrder(a.s, if b.Alnum? then b.s else ""); }
  }

  lemma IdentTransitive(a: Ident, b: Ident, c: Ident)
    requires IdentLess(a, b) && IdentLess(b, c)
    ensures IdentLess(a, c)
  {
    if a.Alnum? { TextTransitive(a.s, b.s, c.s); }
  }

  lemma {:induction false} FieldsOrder(a: seq<Ident>, b: seq<Ident>)
    ensures !FieldsLess(a, a)
    ensures a == b || FieldsLess(a, b) || FieldsLess(b, a)
    ensures !(FieldsLess(a, b) && FieldsLess(b, a))
  {
    if a != [] {
      FieldsOrder(a[1..], if b == [] then [] else b[1..]);
      IdentOrder(a[0], if b == [] then a[0] else b[0]);
    }
    if a != [] && b != [] && a[0] == b[0] {
      assert a[1..] == b[1..] ==> a == [a[0]] + b[1..] == b;
    }
  }

  lemma {:induction false} FieldsTransitive(a: seq<Ident>, b: seq<Ident>, c: seq<Ident>)
    requires FieldsLess(a, b) && FieldsLess(b, c)
    ensures FieldsLess(a, c)
  {
    if a != [] {
      if IdentLess(a[0], b[0]) && IdentLess(b[0], c[0]) {
        IdentTransitive(a[0], b[0], c[0]);
      } else if a[0] == b[0] == c[0] && !IdentLess(a[0], c[0]) {
        IdentOrder(a[0], a[0]);
        FieldsTransitive(a[1..], b[1..], c[1..]);
      }
    }
  }

  /** Precedence is a strict total order: exactly one of below, same, above. */
  lemma PrecedenceIsTotal(a: Version, b: Version)
    ensures !Less(a, a)
    ensures a == b || Less(a, b) || Less(b, a)
    ensures !(Less(a, b) && Less(b, a))
  {
    FieldsOrder(a.pre, b.pre);
  }

  lemma PrecedenceIsTransitive(a: Version, b: Version, c: Version)
    requires Less(a, b) && Less(b, c)
    ensures Less(a, c)
  {
    if a.pre != [] && FieldsLess(a.pre, b.pre) && FieldsLess(b.pre, c.pre) {
      FieldsTransitive(a.pre, b.pre, c.pre);
    }
  }

  /** A numeric field ranks below an alphanumeric one in the same place, which is
      why `-no-tls` builds must be ignored by name: `rc.2` is below `rc.2-no-tls`. */
  lemma {:induction false} NumericBelowAlnum(front: seq<Ident>, n: nat, s: string,
                                             a: seq<Ident>, b: seq<Ident>)
    ensures FieldsLess(front + [Num(n)] + a, front + [Alnum(s)] + b)
  {
    if front != [] {
      assert (front + [Num(n)] + a)[1..] == front[1..] + [Num(n)] + a;
      assert (front + [Alnum(s)] + b)[1..] == front[1..] + [Alnum(s)] + b;
      NumericBelowAlnum(front[1..], n, s, a, b);
    }
  }

  // ----- Section 11, rule by rule -----

  /** At the first place where the texts differ, `s` has the larger character, or `t` is
      already at its end. */
  ghost predicate TextAbove(s: string, t: string) {
    exists k :: 0 <= k < |s| && k <= |t| && s[..k] == t[..k] && (k == |t| || s[k] > t[k])
  }

  ghost predicate IdentAbove(x: Ident, y: Ident) {
    match (x, y)
    case (Num(m), Num(n)) => m > n
    case (Num(_), Alnum(_)) => false
    case (Alnum(_), Num(_)) => true
    case (Alnum(s), Alnum(t)) => TextAbove(s, t)
  }

  /** Behind a common front, `a` has the higher field, or `b` is already at its end. */
  ghost predicate FieldsAbove(a: seq<Ident>, b: seq<Ident>) {
    exists k :: 0 <= k < |a| && k <= |b| && a[..k] == b[..k] && (k == |b| || IdentAbove(a[k], b[k]))
  }

  lemma FrontTail<T>(a: seq<T>, b: seq<T>, k: nat)
    requires 0 < k <= |a| && k <= |b| && a[..k] == b[..k]
    ensures a[0] == b[0] && a[1..][..k - 1] == b[1..][..k - 1]
  {
    assert a[..k][0] == b[..k][0] && a[..k][1..] == b[..k][1..];
    assert a[1..][..k - 1] == a[..k][1..] && b[1..][..k - 1] == b[..k][1..];
  }

  lemma FrontCons<T>(a: seq<T>, b: seq<T>, k: nat)
    requires k < |a| && k < |b| && a[0] == b[0] && a[1..][..k] == b[1..][..k]
    ensures a[..k + 1] == b[..k + 1]
  {
    assert a[..k + 1] == [a[0]] + a[1..][..k] && b[..k + 1] == [b[0]] + b[1..][..k];
  }

  lemma {:induction false} TextLessIs(a: string, b: string)
    ensures TextLess(a, b) <==> TextAbove(b, a)
  {
    if a != "" && b != "" && a[0] == b[0] {
      TextLessIs(a[1..], b[1..]);
      if k :| 0 <= k < |b[1..]| && k <= |a[1..]| && b[1..][..k] == a[1..][..k]
              && (k == |a[1..]| || b[1..][k] > a[1..][k])
      {
        FrontCons(b, a, k);
      }
      if k :| 0 <= k < |b| && k <= |a| && b[..k] == a[..k] && (k == |a| || b[k] > a[k]) {
        FrontTail(b, a, k);
      }
    } else if b != "" {
      assert b[..0] == a[..0];
      if k :| 0 <= k < |b| && k <= |a| && b[..k] == a[..k] && (k == |a| || b[k] > a[k]) {
        if k > 0 { FrontTail(b, a, k); }
      }
    }
  }

  lemma IdentLessIs(x: Ident, y: Ident)
    ensures IdentLess(x, y) <==> IdentAbove(y, x)
  {
    if x.Alnum? && y.Alnum? { TextLessIs(x.s, y.s); }
  }

  lemma {:induction false} FieldsLessIs(a: seq<Ident>, b: seq<Ident>)
    ensures FieldsLess(a, b) <==> FieldsAbove(b, a)
  {
    if a != [] && b != [] {
      IdentLessIs(a[0], b[0]);
      IdentOrder(a[0], a[0]);
      FieldsLessIs(a[1..], b[1..]);
      if k :| 0 <= k < |b[1..]| && k <= |a[1..]| && b[1..][..k] == a[1..][..k]
              && (k == |a[1..]| || IdentAbove(b[1..][k], a[1..][k]))
      {
        if a[0] == b[0] { FrontCons(b, a, k); }
      }
      if k :| 0 <= k < |b| && k <= |a| && b[..k] == a[..k] && (k == |a| || IdentAbove(b[k], a[k])) {
        if k > 0 { FrontTail(b, a, k); }
      }
    }
    assert b[..0] == a[..0];
  }

  // ----- Text form -----

  predicate IsIdentChar(c: char) {
    IsDigit(c) || 'a' <= c <= 'z' || 'A' <= c <= 'Z' || c == DASH
  }

  predicate Digits(s: string) {
    s != "" && forall i | 0 <= i < |s| :: IsDigit(s[i])
  }

  /** Digits without a leading zero, except zero itself. */
  function ParseNumeric(s: string): Option<nat> {
    if Digits(s) && (|s| == 1 || s[0] != '0') then Some(Value(s)) else None
  }

  function ParseCore(s: string): Option<nat> {
    match ParseNumeric(s)
    case Some(n) => if n < U64 then Some(n) else None
    case None => None
  }

  function ParseIdent(s: string): Option<Ident> {
    if s == "" || exists i | 0 <= i < |s| :: !IsIdentChar(s[i]) then None
    else if !Digits(s) then Some(Alnum(s))
    else match ParseNumeric(s)
      case Some(n) => Some(Num(n))
      case None => None
  }

  function ParseIdents(parts: seq<string>): Option<seq<Ident>> {
    if parts == [] then Some([])
    else match (ParseIdent(parts[0]), ParseIdents(parts[1..]))
      case (Some(id), Some(rest)) => Some([id] + rest)
      case _ => None
  }

  function ParseNumbers(s: string, pre: seq<Ident>): Option<Version> {
    var parts := Split(s, DOT);
    if |parts| != 3 then None
    else match (ParseCore(parts[0]), ParseCore(parts[1]), ParseCore(parts[2]))
      case (Some(major), Some(minor), Some(patch)) => Some(Version(major, minor, patch, pre))
      case _ => None
  }

  /** `Version::parse`: three numbers, then optionally a dash and identifiers. */
  function Parse(s: string): Option<Version> {
    var i := IndexOf(s, DASH);
    if i == |s| then ParseNumbers(s, [])
    else match ParseIdents(Split(s[i + 1..], DOT))
      case Some(pre) => ParseNumbers(s[..i], pre)
      case None => None
  }

  predicate ValidIdent(id: Ident) {
    id.Alnum? ==>
      id.s != "" && !Digits(id.s) && forall i | 0 <= i < |id.s| :: IsIdentChar(id.s[i])
  }

  predicate ValidIdents(pre: seq<Ident>) {
    forall i | 0 <= i < |pre| :: ValidIdent(pre[i])
  }

  predicate Valid(v: Version) {
    v.major < U64 && v.minor < U64 && v.patch < U64 && ValidIdents(v.pre)
  }

  function PrintIdent(id: Ident): string {
    match id case Num(n) => Print(n) case Alnum(s) => s
  }

  function PrintIdents(pre: seq<Ident>): (r: seq<string>)
    ensures |r| == |pre| && forall i | 0 <= i < |pre| :: r[i] == PrintIdent(pre[i])
  {
    seq(|pre|, i requires 0 <= i < |pre| => PrintIdent(pre[i]))
  }

  function Numbers(v: Version): string {
    Join([Print(v.major), Print(v.minor), Print(v.patch)], DOT)
  }

  /** `Version::to_string`, the value the oracle publishes. */
  function ValueString(v: Version): string {
    if v.pre == [] then Numbers(v) else Numbers(v) + [DASH] + Join(PrintIdents(v.pre), DOT)
  }

  lemma PrintIsNumeric(n: nat)
    ensures Free(Print(n), DOT) && Free(Print(n), DASH) && Digits(Print(n))
    ensures ParseNumeric(Print(n)) == Some(n)
  {
    var s := Print(n);
    assert forall i | 0 <= i < |s| :: IsDigit(s[i]);
    ValueOfPrint(n);
    if n == 0 { assert s == "0"; }
  }

  lemma IdentReadsBack(id: Ident)
    requires ValidIdent(id)
    ensures ParseIdent(PrintIdent(id)) == Some(id) && Free(PrintIdent(id), DOT)
  {
    if id.Num? {
      PrintIsNumeric(id.n);
      var s := Print(id.n);
      assert forall i | 0 <= i < |s| :: IsDigit(s[i]) && IsIdentChar(s[i]);
    } else {
      assert forall i | 0 <= i < |id.s| :: IsIdentChar(id.s[i]) && id.s[i] != DOT;
    }
  }

  lemma {:induction false} IdentsReadBack(parts: seq<string>, pre: seq<Ident>)
    requires |parts| == |pre| && ValidIdents(pre)
    requires forall i | 0 <= i < |pre| :: parts[i] == PrintIdent(pre[i])
    ensures ParseIdents(parts) == Some(pre) && AllFree(parts, DOT)
  {
    if pre != [] {
      IdentReadsBack(pre[0]);
      IdentsReadBack(parts[1..], pre[1..]);
      assert [pre[0]] + pre[1..] == pre;
      assert forall i | 0 < i < |parts| :: parts[i] == parts[1..][i - 1];
    }
  }

  lemma ThreeParts(a: string, b: string, c: string)
    requires AllFree([a, b, c], DOT) && AllFree([a, b, c], DASH)
    ensures Split(Join([a, b, c], DOT), DOT) == [a, b, c]
    ensures Free(Join([a, b, c], DOT), DASH)
  {
    SplitOfJoin([a, b, c], DOT);
    assert [a, b, c][1..] == [b, c] && [b, c][1..] == [c];
    assert Join([b, c], DOT) == b + [DOT] + c;
    assert Join([a, b, c], DOT) == a + [DOT] + Join([b, c], DOT);
    assert Free([a, b, c][0], DASH) && Free([a, b, c][1], DASH) && Free([a, b, c][2], DASH);
  }

  lemma NumbersReadBack(v: Version, pre: seq<Ident>)
    requires Valid(v)
    ensures ParseNumbers(Numbers(v), pre) == Some(v.(pre := pre))
    ensures Free(Numbers(v), DASH)
  {
    PrintIsNumeric(v.major);
    PrintIsNumeric(v.minor);
    PrintIsNumeric(v.patch);
    ThreeParts(Print(v.major), Print(v.minor), Print(v.patch));
  }

  /** The published text of a version parses back to that version. */
  lemma ValueReadsBack(v: Version)
    requires Valid(v)
    ensures Parse(ValueString(v)) == Some(v)
  {
    NumbersReadBack(v, v.pre);
    if v.pre == [] {
      FreePrefix(Numbers(v), DASH, "");
    } else {
      var parts := PrintIdents(v.pre);
      IdentsReadBack(parts, v.pre);
      FreePrefix(Numbers(v), DASH, Join(parts, DOT));
      SplitOfJoin(parts, DOT);
    }
  }

  lemma ParsedIdentValid(s: string)
    requires ParseIdent(s).Some?
    ensures ValidIdent(ParseIdent(s).value)
  {
  }

  lemma {:induction false} ParsedIdentsValid(parts: seq<string>)
    requires ParseIdents(parts).Some?
    ensures ValidIdents(ParseIdents(parts).value)
  {
    if parts != [] {
      ParsedIdentValid(parts[0]);
      ParsedIdentsValid(parts[1..]);
    }
  }

  lemma ParsedIsValid(s: string)
    requires Parse(s).Some?
    ensures Valid(Parse(s).value)
  {
    var i := IndexOf(s, DASH);
    if i < |s| { ParsedIdentsValid(Split(s[i + 1..], DOT)); }
  }

  lemma NumericIsPrinted(s: string)
    requires ParseNumeric(s).Some?
    ensures s == Print(ParseNumeric(s).value)
  {
    assert AllDigits(s);
    var k := PrintOfValue(s);
    LeadingZeros(k, Value(s));
  }

  lemma IdentIsPrinted(s: string)
    requires ParseIdent(s).Some?
    ensures PrintIdent(ParseIdent(s).value) == s
  {
    if ParseIdent(s).value.Num? { NumericIsPrinted(s); }
  }

  lemma PrintIdentsCons(id: Ident, rest: seq<Ident>)
    ensures PrintIdents([id] + rest) == [PrintIdent(id)] + PrintIdents(rest)
  {
  }

  lemma {:induction false} IdentsArePrinted(parts: seq<string>)
    requires ParseIdents(parts).Some?
    ensures PrintIdents(ParseIdents(parts).value) == parts
  {
    if parts != [] {
      var head, tail := parts[0], parts[1..];
      IdentsArePrinted(tail);
      IdentIsPrinted(head);
      PrintIdentsCons(ParseIdent(head).value, ParseIdents(tail).value);
      assert parts == [head] + tail;
    }
  }

  lemma NumbersArePrinted(s: string, pre: seq<Ident>)
    requires ParseNumbers(s, pre).Some?
    ensures s == Numbers(ParseNumbers(s, pre).value) && ParseNumbers(s, pre).value.pre == pre
  {
    var parts := Split(s, DOT);
    JoinOfSplit(s, DOT);
    NumericIsPrinted(parts[0]);
    NumericIsPrinted(parts[1]);
    NumericIsPrinted(parts[2]);
    var v := ParseNumbers(s, pre).value;
    assert parts == [Print(v.major), Print(v.minor), Print(v.patch)];
  }

  lemma PreIsPrinted(text: string)
    requires ParseIdents(Split(text, DOT)).Some?
    ensures var pre := ParseIdents(Split(text, DOT)).value; pre != [] && Join(PrintIdents(pre), DOT) == text
  {
    IdentsArePrinted(Split(text, DOT));
    JoinOfSplit(text, DOT);
  }

  lemma ParsedIsPrinted(s: string)
    requires Parse(s).Some?
    ensures s == ValueString(Parse(s).value)
  {
    var i := IndexOf(s, DASH);
    if i == |s| {
      NumbersArePrinted(s, []);
    } else {
      var front, text := s[..i], s[i + 1..];
      assert s == front + [DASH] + text;
      PreIsPrinted(text);
      NumbersArePrinted(front, ParseIdents(Split(text, DOT)).value);
    }
  }

  /** A text is read as a version exactly when it is that version printed: no other
      spelling, such as leading zeros, is taken for it. */
  lemma ParseIsExact(s: string, v: Version)
    ensures Parse(s) == Some(v) <==> Valid(v) && s == ValueString(v)
  {
    if Parse(s) == Some(v) {
      ParsedIsValid(s);
      ParsedIsPrinted(s);
    }
    if Valid(v) { ValueReadsBack(v); }
  }

  /** Which versions those are: numbers of 64 bits, and identifiers of digits, letters
      and dashes that are not numbers. */
  lemma ValidMeans(v: Version)
    ensures Valid(v) <==>
              && v.major < 18_446_744_073_709_551_616 && v.minor < 18_446_744_073_709_551_616
              && v.patch < 18_446_744_073_709_551_616
              && forall s | Alnum(s) in v.pre ::
                   && (exists c :: c in s && !('0' <= c <= '9'))
                   && forall c | c in s :: '0' <= c <= '9' || 'a' <= c <= 'z' || 'A' <= c <= 'Z' || c == '-'
  {
    forall i | 0 <= i < |v.pre| && v.pre[i].Alnum?
      ensures ValidIdent(v.pre[i]) <==>
                && (exists c :: c in v.pre[i].s && !('0' <= c <= '9'))
                && forall c | c in v.pre[i].s :: '0' <= c <= '9' || 'a' <= c <= 'z' || 'A' <= c <= 'Z' || c == '-'
    {
      AlnumMeans(v.pre[i].s);
    }
  }

  lemma AlnumMeans(s: string)
    ensures ValidIdent(Alnum(s)) <==>
              && (exists c :: c in s && !('0' <= c <= '9'))
              && forall c | c in s :: '0' <= c <= '9' || 'a' <= c <= 'z' || 'A' <= c <= 'Z' || c == '-'
  {
    assert forall i | 0 <= i < |s| :: s[i] in s;
  }

  lemma NumbersSpelled(v: Version)
    ensures Numbers(v) == Print(v.major) + "." + Print(v.minor) + "." + Print(v.patch)
  {
    var a, b, c := Print(v.major), Print(v.minor), Print(v.patch);
    assert [a, b, c][1..] == [b, c] && [b, c][1..] == [c];
    assert Join([b, c], DOT) == b + [DOT] + c;
    assert Join([a, b, c], DOT) == a + [DOT] + Join([b, c], DOT);
  }

  /** The printed form, letter by letter. */
  lemma ValueIsSpelled(v: Version)
    ensures v.pre == [] ==> ValueString(v) == Print(v.major) + "." + Print(v.minor) + "." + Print(v.patch)
    ensures |v.pre| == 1 ==> ValueString(v) == ValueString(v.(pre := [])) + "-" + PrintIdent(v.pre[0])
    ensures |v.pre| > 1 ==>
              ValueString(v) == ValueString(v.(pre := v.pre[..|v.pre| - 1])) + "." + PrintIdent(v.pre[|v.pre| - 1])
  {
    NumbersSpelled(v);
    if |v.pre| > 1 {
      var n := |v.pre| - 1;
      JoinSnoc(PrintIdents(v.pre), DOT);
      assert PrintIdents(v.pre)[..n] == PrintIdents(v.pre[..n]);
    }
  }

  lemma {:induction false} JoinSnoc(parts: seq<string>, c: char)
    requires parts != []
    ensures |parts| > 1 ==>
              Join(parts, c) == Join(parts[..|parts| - 1], c) + [c] + parts[|parts| - 1]
  {
    if |parts| > 1 {
      JoinSnoc(parts[1..], c);
      assert parts[1..][..|parts| - 2] == parts[..|parts| - 1][1..];
    }
  }
}
