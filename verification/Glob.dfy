/** The Redis-style key glob of `zkv keys`, `zkv get` and `zkv shallow`.

    A pattern denotes a sequence of tokens, and a token sequence accepts a set
    of texts. `Match` is the two-pointer loop that decides membership while
    remembering only the latest star. */
module Glob {

  datatype Token = Star | Lit(c: char)

  const STAR: char := '*'
  const ESCAPE: char := '\\'

  /** The literal token at `pi`: the character it stands for and its width. */
  function LitAt(p: string, pi: nat): (r: (char, nat))
    requires pi < |p|
    ensures 1 <= r.1 <= |p| - pi
  {
    if p[pi] == ESCAPE && pi + 1 < |p| then (p[pi + 1], 2) else (p[pi], 1)
  }

  /** What a pattern denotes from index `pi` on, token by token. */
  function TokensFrom(p: string, pi: nat): seq<Token>
    requires pi <= |p|
    decreases |p| - pi
  {
    if pi == |p| then []
    else if p[pi] == STAR then [Star] + TokensFrom(p, pi + 1)
    else [Lit(LitAt(p, pi).0)] + TokensFrom(p, pi + LitAt(p, pi).1)
  }

  function Tokens(p: string): seq<Token> {
    TokensFrom(p, 0)
  }

  /** Whether the tokens account for exactly the rest of `t` from `ti` on. */
  predicate Accepts(toks: seq<Token>, t: string, ti: nat)
    requires ti <= |t|
    decreases |toks|
  {
    if toks == [] then ti == |t|
    else match toks[0]
      case Star => exists k | ti <= k <= |t| :: Accepts(toks[1..], t, k)
      case Lit(c) => ti < |t| && t[ti] == c && Accepts(toks[1..], t, ti + 1)
  }

  predicate Matches(p: string, t: string) {
    Accepts(Tokens(p), t, 0)
  }

  ghost predicate AllLits(toks: seq<Token>) {
    forall i | 0 <= i < |toks| :: toks[i].Lit?
  }

  ghost predicate AllStars(toks: seq<Token>) {
    toks == [] || (toks[0].Star? && AllStars(toks[1..]))
  }

  /** Some strictly later anchor of the latest star also accepts. */
  ghost predicate LaterAnchor(toks: seq<Token>, t: string, sti: nat) {
    exists k | sti < k <= |t| :: Accepts(toks, t, k)
  }

  // ----- Why the latest star is enough -----

  /** A literal run, then a star: whatever the whole accepts, the part behind
      the star accepts at some offset past the run. */
  lemma {:induction false} StarBehindLits(lits: seq<Token>, rest: seq<Token>, t: string, ti: nat)
    requires ti <= |t| && AllLits(lits) && Accepts(lits + [Star] + rest, t, ti)
    ensures exists j | ti + |lits| <= j <= |t| :: Accepts(rest, t, j)
  {
    var toks := lits + [Star] + rest;
    if lits == [] {
      assert toks[1..] == rest;
    } else {
      assert toks[1..] == lits[1..] + [Star] + rest;
      StarBehindLits(lits[1..], rest, t, ti + 1);
    }
  }

  /** A text shorter than the literal run in front is never accepted. */
  lemma {:induction false} TooShort(lits: seq<Token>, rest: seq<Token>, t: string, ti: nat)
    requires ti <= |t| && AllLits(lits) && |t| - ti < |lits|
    ensures !Accepts(lits + rest, t, ti)
  {
    if ti < |t| {
      assert (lits + rest)[1..] == lits[1..] + rest;
      TooShort(lits[1..], rest, t, ti + 1);
    }
  }

  /** Only stars accept the empty text. */
  lemma {:induction false} EmptyText(toks: seq<Token>, t: string)
    ensures Accepts(toks, t, |t|) <==> AllStars(toks)
  {
    if toks != [] && toks[0].Star? { EmptyText(toks[1..], t); }
  }

  // ----- The loop -----

  /** Where the latest star stands: the pattern index behind it, and the text
      index its run currently ends at. */
  datatype Anchor = NoStar | At(spi: nat, sti: nat)

  function AnchorOf(star: Anchor): nat {
    if star.At? then star.sti else 0
  }

  /** What the loop knows: the answer is the current attempt, or a later anchor
      of the latest star; since that star only literals were consumed. */
  ghost predicate LoopInv(p: string, t: string, pi: nat, ti: nat, star: Anchor, lits: seq<Token>) {
    && pi <= |p| && AnchorOf(star) <= ti <= |t|
    && (star.NoStar? ==> (Matches(p, t) <==> Accepts(TokensFrom(p, pi), t, ti)))
    && (star.At? ==>
          && star.spi <= pi && |lits| == ti - star.sti && AllLits(lits)
          && TokensFrom(p, star.spi) == lits + TokensFrom(p, pi)
          && (Matches(p, t) <==>
                || Accepts(TokensFrom(p, pi), t, ti)
                || LaterAnchor(TokensFrom(p, star.spi), t, star.sti)))
  }

  /** Some anchor from `ti` on is either here or later. */
  lemma StarSplits(toks: seq<Token>, t: string, ti: nat)
    requires ti <= |t| && toks != [] && toks[0].Star?
    ensures Accepts(toks, t, ti) <==> Accepts(toks[1..], t, ti) || LaterAnchor(toks[1..], t, ti)
  {
  }

  /** Once a newer star is reached, later anchors of the older one add nothing. */
  lemma NewStarSubsumes(lits: seq<Token>, rest: seq<Token>, t: string, sti: nat, ti: nat)
    requires sti <= ti <= |t| && AllLits(lits) && |lits| == ti - sti
    requires LaterAnchor(lits + ([Star] + rest), t, sti)
    ensures LaterAnchor(rest, t, ti)
  {
    var k :| sti < k <= |t| && Accepts(lits + ([Star] + rest), t, k);
    assert lits + ([Star] + rest) == lits + [Star] + rest;
    StarBehindLits(lits, rest, t, k);
  }

  /** At a star, the attempt and the older star's later anchors together accept what
      the star itself does. */
  lemma StarTakesOver(p: string, t: string, pi: nat, ti: nat, star: Anchor, lits: seq<Token>)
    requires LoopInv(p, t, pi, ti, star, lits)
    requires pi < |p| && p[pi] == STAR
    ensures Matches(p, t) <==> Accepts(TokensFrom(p, pi + 1), t, ti) || LaterAnchor(TokensFrom(p, pi + 1), t, ti)
  {
    var here, rest := TokensFrom(p, pi), TokensFrom(p, pi + 1);
    assert here == [Star] + rest && here[1..] == rest;
    StarSplits(here, t, ti);
    if star.At? && LaterAnchor(TokensFrom(p, star.spi), t, star.sti) {
      NewStarSubsumes(lits, rest, t, star.sti, ti);
    }
  }

  lemma TakeStar(p: string, t: string, pi: nat, ti: nat, star: Anchor, lits: seq<Token>)
    requires LoopInv(p, t, pi, ti, star, lits)
    requires pi < |p| && p[pi] == STAR
    ensures LoopInv(p, t, pi + 1, ti, At(pi + 1, ti), [])
  {
    StarTakesOver(p, t, pi, ti, star, lits);
    var none: seq<Token> := [];
    assert none + TokensFrom(p, pi + 1) == TokensFrom(p, pi + 1);
  }

  lemma TakeLit(p: string, t: string, pi: nat, ti: nat, star: Anchor, lits: seq<Token>)
    requires LoopInv(p, t, pi, ti, star, lits)
    requires ti < |t| && pi < |p| && p[pi] != STAR && LitAt(p, pi).0 == t[ti]
    ensures LoopInv(p, t, pi + LitAt(p, pi).1, ti + 1, star, lits + [Lit(t[ti])])
  {
    var rest := TokensFrom(p, pi + LitAt(p, pi).1);
    assert TokensFrom(p, pi) == [Lit(t[ti])] + rest;
    LitHead(rest, t, ti);
    if star.At? {
      ExtendLits(lits, t[ti], rest);
    }
  }

  lemma LitHead(rest: seq<Token>, t: string, ti: nat)
    requires ti < |t|
    ensures Accepts([Lit(t[ti])] + rest, t, ti) <==> Accepts(rest, t, ti + 1)
  {
    assert ([Lit(t[ti])] + rest)[1..] == rest;
  }

  lemma ExtendLits(lits: seq<Token>, c: char, rest: seq<Token>)
    requires AllLits(lits)
    ensures AllLits(lits + [Lit(c)]) && lits + ([Lit(c)] + rest) == lits + [Lit(c)] + rest
  {
  }

  /** On a mismatch the current attempt is dead: without a star so is the match,
      and with one the star takes one more character. */
  lemma Backtrack(p: string, t: string, pi: nat, ti: nat, star: Anchor, lits: seq<Token>)
    requires LoopInv(p, t, pi, ti, star, lits) && ti < |t|
    requires pi < |p| ==> p[pi] != STAR && LitAt(p, pi).0 != t[ti]
    ensures star.NoStar? ==> !Matches(p, t)
    ensures star.At? ==> star.spi <= pi && star.sti < |t|
    ensures star.At? ==> LoopInv(p, t, star.spi, star.sti + 1, At(star.spi, star.sti + 1), [])
  {
    assert !Accepts(TokensFrom(p, pi), t, ti);
    if star.At? {
      var toks := TokensFrom(p, star.spi);
      assert [] + toks == toks;
      if LaterAnchor(toks, t, star.sti) {
        var k :| star.sti < k <= |t| && Accepts(toks, t, k);
        assert k == star.sti + 1 || LaterAnchor(toks, t, star.sti + 1);
      }
    }
  }

  /** With the text used up, later anchors leave too little text to accept. */
  lemma TextConsumed(p: string, t: string, pi: nat, ti: nat, star: Anchor, lits: seq<Token>)
    requires LoopInv(p, t, pi, ti, star, lits) && ti == |t|
    ensures Matches(p, t) <==> AllStars(TokensFrom(p, pi))
  {
    EmptyText(TokensFrom(p, pi), t);
    if star.At? && LaterAnchor(TokensFrom(p, star.spi), t, star.sti) {
      var k :| star.sti < k <= |t| && Accepts(TokensFrom(p, star.spi), t, k);
      TooShort(lits, TokensFrom(p, pi), t, k);
    }
  }

  /** `k` rounds of `n` steps each. */
  function Rounds(k: nat, n: nat): nat {
    if k == 0 then 0 else Rounds(k - 1, n) + n
  }

  lemma {:induction false} RoundsGrow(k: nat, m: nat, n: nat)
    requires k <= m
    ensures Rounds(k, n) <= Rounds(m, n)
  {
    if k < m { RoundsGrow(k, m - 1, n); }
  }

  lemma {:induction false} RoundsIsProduct(k: nat, n: nat)
    ensures Rounds(k, n) == k * n
  {
    if k > 0 { RoundsIsProduct(k - 1, n); }
  }

  lemma StepBound(steps: nat, misses: nat, pi: nat, p: string, t: string)
    requires steps <= Rounds(misses, |p| + 1) + pi + 1 && misses <= |t| && pi <= |p|
    ensures steps <= (|t| + 1) * (|p| + 1)
  {
    RoundsGrow(misses + 1, |t| + 1, |p| + 1);
    RoundsIsProduct(|t| + 1, |p| + 1);
  }

  /** `glob_match`. The answer is membership in the pattern's language, and the
      loop head is reached at most `(|text| + 1) * (|pattern| + 1)` times: every
      mismatch moves the star's anchor up, and between mismatches the pattern
      index rises. */
  method Match(p: string, t: string) returns (matched: bool, ghost steps: nat)
    ensures matched <==> Matches(p, t)
    ensures steps <= (|t| + 1) * (|p| + 1)
  {
    var pi: nat, ti: nat := 0, 0;
    var star := NoStar;
    ghost var lits: seq<Token> := [];
    ghost var misses: nat := 0;
    steps := 0;
    while ti < |t|
      invariant LoopInv(p, t, pi, ti, star, lits)
      invariant misses <= AnchorOf(star) && steps <= Rounds(misses, |p| + 1) + pi
      decreases |t| - AnchorOf(star), |p| - pi
    {
      steps := steps + 1;
      if pi < |p| && p[pi] == STAR {
        TakeStar(p, t, pi, ti, star, lits);
        star, lits := At(pi + 1, ti), [];
        pi := pi + 1;
      } else if pi < |p| && LitAt(p, pi).0 == t[ti] {
        TakeLit(p, t, pi, ti, star, lits);
        lits := lits + [Lit(t[ti])];
        pi, ti := pi + LitAt(p, pi).1, ti + 1;
      } else {
        Backtrack(p, t, pi, ti, star, lits);
        if star.NoStar? {
          StepBound(steps, misses, pi, p, t);
          return false, steps;
        }
        misses := misses + 1;
        pi, ti, star, lits := star.spi, star.sti + 1, At(star.spi, star.sti + 1), [];
      }
    }
    TextConsumed(p, t, pi, ti, star, lits);
    steps := steps + 1;
    StepBound(steps, misses, pi, p, t);
    matched := TrailingStars(p, pi);
  }

  /** The tail loop of `glob_match`: skip stars, then ask for the end. */
  method TrailingStars(p: string, from: nat) returns (r: bool)
    requires from <= |p|
    ensures r <==> AllStars(TokensFrom(p, from))
  {
    var pi := from;
    while pi < |p| && p[pi] == STAR
      invariant from <= pi <= |p|
      invariant AllStars(TokensFrom(p, from)) <==> AllStars(TokensFrom(p, pi))
    {
      assert TokensFrom(p, pi)[1..] == TokensFrom(p, pi + 1);
      pi := pi + 1;
    }
    return pi == |p|;
  }

  // ----- What the language is, without the recursion -----

  function StarCount(toks: seq<Token>): nat {
    if toks == [] then 0 else (if toks[0].Star? then 1 else 0) + StarCount(toks[1..])
  }

  /** The text obtained by putting `runs`, in order, in place of the stars. */
  function Expand(toks: seq<Token>, runs: seq<string>): string
    requires |runs| == StarCount(toks)
  {
    if toks == [] then ""
    else match toks[0]
      case Star => runs[0] + Expand(toks[1..], runs[1..])
      case Lit(c) => [c] + Expand(toks[1..], runs)
  }

  ghost predicate IsExpansion(toks: seq<Token>, runs: seq<string>, t: string) {
    |runs| == StarCount(toks) && t == Expand(toks, runs)
  }

  lemma {:induction false} AcceptedIsExpansion(toks: seq<Token>, t: string, ti: nat)
      returns (runs: seq<string>)
    requires ti <= |t| && Accepts(toks, t, ti)
    ensures IsExpansion(toks, runs, t[ti..])
  {
    if toks == [] {
      runs := [];
    } else if toks[0].Star? {
      var k :| ti <= k <= |t| && Accepts(toks[1..], t, k);
      var more := AcceptedIsExpansion(toks[1..], t, k);
      runs := [t[ti..k]] + more;
      assert runs[1..] == more && t[ti..] == t[ti..k] + t[k..];
    } else {
      runs := AcceptedIsExpansion(toks[1..], t, ti + 1);
      assert t[ti..] == [t[ti]] + t[ti + 1..];
    }
  }

  lemma {:induction false} ExpansionIsAccepted(toks: seq<Token>, runs: seq<string>, t: string, ti: nat)
    requires ti <= |t| && IsExpansion(toks, runs, t[ti..])
    ensures Accepts(toks, t, ti)
  {
    if toks == [] {
    } else if toks[0].Star? {
      var k := ti + |runs[0]|;
      assert t[ti..][|runs[0]|..] == t[k..];
      assert Expand(toks, runs)[|runs[0]|..] == Expand(toks[1..], runs[1..]);
      ExpansionIsAccepted(toks[1..], runs[1..], t, k);
    } else {
      assert Expand(toks, runs)[1..] == Expand(toks[1..], runs);
      assert t[ti..][1..] == t[ti + 1..] && t[ti] == t[ti..][0];
      ExpansionIsAccepted(toks[1..], runs, t, ti + 1);
    }
  }

  /** A text matches exactly when some choice of runs for the stars spells it. */
  lemma MatchesIffExpansion(p: string, t: string)
    ensures Matches(p, t) <==> exists runs :: IsExpansion(Tokens(p), runs, t)
  {
    assert t[0..] == t;
    if Matches(p, t) {
      var runs := AcceptedIsExpansion(Tokens(p), t, 0);
    }
    if runs :| IsExpansion(Tokens(p), runs, t) {
      ExpansionIsAccepted(Tokens(p), runs, t, 0);
    }
  }

  // ----- Literal patterns -----

  /** The pattern with its escapes removed, read as a plain key. */
  function Unescape(p: string): string {
    Literals(Tokens(p))
  }

  function Literals(toks: seq<Token>): string {
    if toks == [] then ""
    else (if toks[0].Lit? then [toks[0].c] else "") + Literals(toks[1..])
  }

  predicate IsPattern(p: string) {
    StarCount(Tokens(p)) > 0
  }

  /** `has_wildcard`: one pass over the characters, skipping what a backslash
      escapes. */
  method HasWildcard(p: string) returns (r: bool)
    ensures r <==> IsPattern(p)
  {
    var i := 0;
    while i < |p|
      invariant i <= |p|
      invariant IsPattern(p) <==> StarCount(TokensFrom(p, i)) > 0
    {
      var c := p[i];
      i := i + 1;
      if c == ESCAPE {
        assert TokensFrom(p, i - 1)[1..] == TokensFrom(p, i - 1 + LitAt(p, i - 1).1);
        if i < |p| { i := i + 1; }
      } else if c == STAR {
        return true;
      } else {
        assert TokensFrom(p, i - 1)[1..] == TokensFrom(p, i);
      }
    }
    return false;
  }

  lemma {:induction false} NoStarExpansion(toks: seq<Token>)
    requires StarCount(toks) == 0
    ensures Expand(toks, []) == Literals(toks)
  {
    if toks != [] { NoStarExpansion(toks[1..]); }
  }

  /** Any star can be stretched: an accepted text at least `n` long. */
  lemma {:induction false} Stretch(toks: seq<Token>, n: nat) returns (runs: seq<string>)
    requires StarCount(toks) > 0
    ensures |runs| == StarCount(toks) && |Expand(toks, runs)| >= n
  {
    if toks[0].Lit? {
      runs := Stretch(toks[1..], n);
    } else if StarCount(toks[1..]) > 0 {
      var more := Stretch(toks[1..], n);
      runs := [""] + more;
      assert runs[1..] == more;
    } else {
      runs := [seq(n, _ => STAR)];
    }
  }

  /** A pattern without a wildcard accepts its unescaped form and nothing else;
      one with a wildcard accepts texts of every minimum length. */
  lemma LiteralAcceptsOnlyItself(p: string, t: string)
    requires !IsPattern(p)
    ensures Matches(p, t) <==> t == Unescape(p)
  {
    MatchesIffExpansion(p, t);
    NoStarExpansion(Tokens(p));
    if t == Unescape(p) {
      var none: seq<string> := [];
      assert IsExpansion(Tokens(p), none, t);
    }
  }

  lemma WildcardAcceptsLong(p: string, n: nat) returns (t: string)
    requires IsPattern(p)
    ensures Matches(p, t) && |t| >= n
  {
    var runs := Stretch(Tokens(p), n);
    t := Expand(Tokens(p), runs);
    assert IsExpansion(Tokens(p), runs, t);
    MatchesIffExpansion(p, t);
  }

  /** `has_wildcard` decides exactly whether a pattern names a single key. */
  lemma WildcardIffManyKeys(p: string)
    ensures IsPattern(p) <==> exists t, u :: t != u && Matches(p, t) && Matches(p, u)
  {
    if IsPattern(p) {
      var t := WildcardAcceptsLong(p, 0);
      var u := WildcardAcceptsLong(p, |t| + 1);
      assert t != u;
    } else {
      forall t | Matches(p, t) ensures t == Unescape(p) { LiteralAcceptsOnlyItself(p, t); }
    }
  }

  /** Unescaping keeps the text exactly when there was nothing to unescape, and
      shortens it otherwise. */
  lemma {:induction false} UnescapeLength(p: string, i: nat)
    requires i <= |p| && StarCount(TokensFrom(p, i)) == 0
    ensures |Literals(TokensFrom(p, i))| <= |p| - i
    ensures |Literals(TokensFrom(p, i))| == |p| - i ==> Literals(TokensFrom(p, i)) == p[i..]
    decreases |p| - i
  {
    if i < |p| {
      assert TokensFrom(p, i)[1..] == TokensFrom(p, i + LitAt(p, i).1);
      UnescapeLength(p, i + LitAt(p, i).1);
    }
  }

  /** Without a backslash a pattern's letters stand for themselves. */
  lemma {:induction false} PlainUnescape(p: string, i: nat)
    requires i <= |p| && forall j | i <= j < |p| :: p[j] != ESCAPE
    ensures StarCount(TokensFrom(p, i)) == 0 ==> Literals(TokensFrom(p, i)) == p[i..]
    decreases |p| - i
  {
    if i < |p| {
      PlainUnescape(p, i + 1);
      assert TokensFrom(p, i)[1..] == TokensFrom(p, i + 1);
    }
  }

  // ----- What a backslash means -----

  function EscapedChar(c: char): string {
    if c == '*' || c == '\\' then ['\\', c] else [c]
  }

  /** A text as a pattern that stands for it: a backslash before every `*` and `\`. */
  function Escaped(t: string): string {
    if t == "" then "" else EscapedChar(t[0]) + Escaped(t[1..])
  }

  function Lits(t: string): seq<Token> {
    seq(|t|, i requires 0 <= i < |t| => Lit(t[i]))
  }

  predicate StandsAt(p: string, i: nat, part: string) {
    i + |part| <= |p| && p[i..i + |part|] == part
  }

  /** From `i` to `j` the pattern reads as these tokens. */
  predicate Reads(p: string, i: nat, toks: seq<Token>, j: nat) {
    i <= j <= |p| && TokensFrom(p, i) == toks + TokensFrom(p, j)
  }

  lemma ReadsOn(p: string, i: nat, a: seq<Token>, j: nat, b: seq<Token>, k: nat)
    requires Reads(p, i, a, j) && Reads(p, j, b, k)
    ensures Reads(p, i, a + b, k)
  {
    assert a + (b + TokensFrom(p, k)) == (a + b) + TokensFrom(p, k);
  }

  lemma ReadsNothing(p: string, i: nat)
    requires i <= |p|
    ensures Reads(p, i, [], i)
  {
    assert [] + TokensFrom(p, i) == TokensFrom(p, i);
  }

  lemma ReadsChar(p: string, i: nat, c: char)
    requires StandsAt(p, i, EscapedChar(c))
    ensures Reads(p, i, [Lit(c)], i + |EscapedChar(c)|)
  {
    var e := EscapedChar(c);
    assert p[i] == e[0] && (|e| == 2 ==> p[i + 1] == e[1]);
  }

  lemma StandsInTurn(p: string, i: nat, a: string, b: string)
    requires StandsAt(p, i, a + b)
    ensures StandsAt(p, i, a) && StandsAt(p, i + |a|, b)
  {
    assert (a + b)[..|a|] == a && (a + b)[|a|..] == b;
    assert p[i..i + |a|] == p[i..i + |a + b|][..|a|];
    assert p[i + |a|..i + |a + b|] == p[i..i + |a + b|][|a|..];
  }

  lemma EscapedParts(p: string, i: nat, t: string) returns (n: nat)
    requires t != "" && StandsAt(p, i, Escaped(t))
    ensures n == i + |EscapedChar(t[0])| && n + |Escaped(t[1..])| == i + |Escaped(t)|
    ensures StandsAt(p, i, EscapedChar(t[0])) && StandsAt(p, n, Escaped(t[1..]))
  {
    n := i + |EscapedChar(t[0])|;
    StandsInTurn(p, i, EscapedChar(t[0]), Escaped(t[1..]));
  }

  lemma LitsCons(t: string)
    requires t != ""
    ensures Lits(t) == [Lit(t[0])] + Lits(t[1..])
  {
  }

  /** Wherever it stands in a pattern, an escaped text is its own letters. */
  lemma {:induction false} EscapedTokens(p: string, i: nat, t: string)
    requires StandsAt(p, i, Escaped(t))
    ensures Reads(p, i, Lits(t), i + |Escaped(t)|)
    decreases |t|
  {
    if t == "" {
      assert Lits(t) == [];
      ReadsNothing(p, i);
    } else {
      var n := EscapedParts(p, i, t);
      ReadsChar(p, i, t[0]);
      EscapedTokens(p, n, t[1..]);
      ReadsOn(p, i, [Lit(t[0])], n, Lits(t[1..]), i + |Escaped(t)|);
      LitsCons(t);
    }
  }

  /** Read to its end. */
  lemma ReadsAll(p: string, toks: seq<Token>)
    requires Reads(p, 0, toks, |p|)
    ensures Tokens(p) == toks
  {
    assert toks + [] == toks;
  }

  lemma {:induction false} LitsOnly(t: string)
    ensures StarCount(Lits(t)) == 0 && Literals(Lits(t)) == t
  {
    if t != "" {
      assert Lits(t)[1..] == Lits(t[1..]);
      LitsOnly(t[1..]);
    }
  }

  /** Whatever spells the letters of `t` is no wildcard and matches `t` alone. */
  lemma SpelledMatches(p: string, t: string, u: string)
    requires Tokens(p) == Lits(t)
    ensures !IsPattern(p) && (Matches(p, u) <==> u == t)
  {
    LitsOnly(t);
    LiteralAcceptsOnlyItself(p, u);
  }

  /** An escaped text matches itself and nothing else. */
  lemma EscapedMatchesItself(t: string, u: string)
    ensures !IsPattern(Escaped(t)) && (Matches(Escaped(t), u) <==> u == t)
  {
    EscapedTokens(Escaped(t), 0, t);
    ReadsAll(Escaped(t), Lits(t));
    SpelledMatches(Escaped(t), t, u);
  }

  /** A lone backslash at the end stands for itself. */
  lemma TrailingBackslash(t: string, u: string)
    ensures var p := Escaped(t) + "\\"; !IsPattern(p) && (Matches(p, u) <==> u == t + "\\")
  {
    var p := Escaped(t) + "\\";
    EscapedTokens(p, 0, t);
    assert Reads(p, |Escaped(t)|, [Lit('\\')], |p|);
    ReadsOn(p, 0, Lits(t), |Escaped(t)|, [Lit('\\')], |p|);
    assert Lits(t) + [Lit('\\')] == Lits(t + "\\");
    ReadsAll(p, Lits(t + "\\"));
    SpelledMatches(p, t + "\\", u);
  }

  predicate Spells(mid: string, tok: Token) {
    (mid == "*" && tok == Star) || (|mid| == 2 && mid[0] == '\\' && tok == Lit(mid[1]))
  }

  lemma ReadsToken(p: string, i: nat, mid: string, tok: Token)
    requires StandsAt(p, i, mid) && Spells(mid, tok)
    ensures Reads(p, i, [tok], i + |mid|)
  {
    assert p[i] == mid[0] && (|mid| == 2 ==> p[i + 1] == mid[1]);
  }

  lemma ThreeStand(a: string, b: string, c: string)
    ensures var p := a + b + c;
            StandsAt(p, 0, a) && StandsAt(p, |a|, b) && StandsAt(p, |a| + |b|, c) && |p| == |a| + |b| + |c|
  {
    assert a + (b + c) == a + b + c;
    StandsInTurn(a + b + c, 0, a, b + c);
    StandsInTurn(a + b + c, |a|, b, c);
  }

  lemma ReadsInTurn(p: string, m: nat, a: seq<Token>, tok: Token, width: nat, b: seq<Token>)
    requires Reads(p, 0, a, m) && Reads(p, m, [tok], m + width) && Reads(p, m + width, b, |p|)
    ensures Tokens(p) == a + ([tok] + b)
  {
    ReadsOn(p, m, [tok], m + width, b, |p|);
    ReadsOn(p, 0, a, m, [tok] + b, |p|);
    ReadsAll(p, a + ([tok] + b));
  }

  /** Two escaped texts with one token of the pattern between them. */
  lemma TokensAround(a: string, mid: string, tok: Token, b: string)
    requires Spells(mid, tok)
    ensures Tokens(Escaped(a) + mid + Escaped(b)) == Lits(a) + ([tok] + Lits(b))
  {
    var p, m := Escaped(a) + mid + Escaped(b), |Escaped(a)|;
    ThreeStand(Escaped(a), mid, Escaped(b));
    EscapedTokens(p, 0, a);
    ReadsToken(p, m, mid, tok);
    EscapedTokens(p, m + |mid|, b);
    ReadsInTurn(p, m, Lits(a), tok, |mid|, Lits(b));
  }

  /** A backslash makes whatever character follows it stand for itself. */
  lemma EscapeIsLiteral(a: string, c: char, b: string, u: string)
    ensures var p := Escaped(a) + ['\\', c] + Escaped(b); !IsPattern(p) && (Matches(p, u) <==> u == a + [c] + b)
  {
    TokensAround(a, ['\\', c], Lit(c), b);
    assert Lits(a) + ([Lit(c)] + Lits(b)) == Lits(a + [c] + b);
    SpelledMatches(Escaped(a) + ['\\', c] + Escaped(b), a + [c] + b, u);
  }

  lemma {:induction false} ExpandLits(t: string, rest: seq<Token>, runs: seq<string>)
    requires |runs| == StarCount(rest)
    ensures StarCount(Lits(t) + rest) == |runs| && Expand(Lits(t) + rest, runs) == t + Expand(rest, runs)
  {
    if t == "" {
      assert Lits(t) + rest == rest;
    } else {
      assert (Lits(t) + rest)[1..] == Lits(t[1..]) + rest;
      ExpandLits(t[1..], rest, runs);
    }
  }

  lemma ExpandAround(a: string, b: string, runs: seq<string>)
    requires |runs| == 1
    ensures var toks := Lits(a) + ([Star] + Lits(b));
            StarCount(toks) == 1 && Expand(toks, runs) == a + runs[0] + b
  {
    var none: seq<string> := [];
    LitsOnly(b);
    NoStarExpansion(Lits(b));
    assert ([Star] + Lits(b))[1..] == Lits(b) && runs[1..] == none;
    ExpandLits(a, [Star] + Lits(b), runs);
  }

  predicate Between(a: string, b: string, u: string) {
    |a| + |b| <= |u| && u[..|a|] == a && u[|u| - |b|..] == b
  }

  lemma BetweenIff(a: string, b: string, u: string)
    ensures Between(a, b, u) <==> exists runs :: IsExpansion(Lits(a) + ([Star] + Lits(b)), runs, u)
  {
    var toks := Lits(a) + ([Star] + Lits(b));
    ExpandAround(a, b, [""]);
    if runs :| IsExpansion(toks, runs, u) { ExpandAround(a, b, runs); }
    if Between(a, b, u) {
      var runs := [u[|a|..|u| - |b|]];
      ExpandAround(a, b, runs);
      assert IsExpansion(toks, runs, u);
    }
  }

  lemma ExpansionTokens(p: string, toks: seq<Token>, u: string)
    requires Tokens(p) == toks
    ensures Matches(p, u) <==> exists runs :: IsExpansion(toks, runs, u)
  {
    MatchesIffExpansion(p, u);
  }

  /** A star between two texts matches what begins with the one and, past it, ends
      with the other. */
  lemma StarBetween(a: string, b: string, u: string)
    ensures var p := Escaped(a) + "*" + Escaped(b);
            IsPattern(p) && (Matches(p, u) <==> |a| + |b| <= |u| && u[..|a|] == a && u[|u| - |b|..] == b)
  {
    TokensAround(a, "*", Star, b);
    ExpandAround(a, b, [""]);
    ExpansionTokens(Escaped(a) + "*" + Escaped(b), Lits(a) + ([Star] + Lits(b)), u);
    BetweenIff(a, b, u);
  }
}
