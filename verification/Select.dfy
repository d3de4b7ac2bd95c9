/** The version oracle's choice: which of a repository's tags to publish. */
module Select {
  import opened Wrappers
  import opened Decimal
  import opened Semver

  datatype Channel = Latest | Stable

  /** One optional leading `v` or `V`, then a version. */
  function ParseTag(tag: string): Option<Version> {
    if tag != "" && (tag[0] == 'v' || tag[0] == 'V') then Parse(tag[1..]) else Parse(tag)
  }

  predicate Contains(text: string, pat: string) {
    exists i | 0 <= i <= |text| :: pat <= text[i..]
  }

  predicate Ignored(tag: string, ignore: seq<string>) {
    exists i | 0 <= i < |ignore| :: ignore[i] != "" && Contains(tag, ignore[i])
  }

  predicate OnChannel(v: Version, channel: Channel) {
    channel.Latest? || v.pre == []
  }

  /** The version a tag stands for, when the oracle may publish it. */
  function Candidate(tag: string, channel: Channel, ignore: seq<string>): Option<Version> {
    if Ignored(tag, ignore) then None
    else match ParseTag(tag)
      case Some(v) => if OnChannel(v, channel) then Some(v) else None
      case None => None
  }

  function Higher(a: Option<Version>, b: Option<Version>): Option<Version> {
    match (a, b)
    case (None, _) => b
    case (_, None) => a
    case (Some(v), Some(w)) => if Less(w, v) then a else b
  }

  /** `select`: filter, parse, and take the maximum. */
  function Select(tags: seq<string>, channel: Channel, ignore: seq<string>): Option<Version> {
    if tags == [] then None
    else Higher(Candidate(tags[0], channel, ignore), Select(tags[1..], channel, ignore))
  }

  ghost predicate Qualifies(v: Version, tags: seq<string>, channel: Channel, ignore: seq<string>) {
    exists i | 0 <= i < |tags| :: Candidate(tags[i], channel, ignore) == Some(v)
  }

  lemma QualifiesStep(v: Version, tags: seq<string>, channel: Channel, ignore: seq<string>)
    requires tags != []
    ensures Qualifies(v, tags, channel, ignore)
       <==> Candidate(tags[0], channel, ignore) == Some(v) || Qualifies(v, tags[1..], channel, ignore)
  {
    if Qualifies(v, tags[1..], channel, ignore) {
      var i :| 0 <= i < |tags[1..]| && Candidate(tags[1..][i], channel, ignore) == Some(v);
      assert tags[i + 1] == tags[1..][i];
    }
    if i :| 0 <= i < |tags| && Candidate(tags[i], channel, ignore) == Some(v) {
      assert i == 0 || tags[1..][i - 1] == tags[i];
    }
  }

  ghost predicate IsMaximum(v: Version, tags: seq<string>, channel: Channel, ignore: seq<string>) {
    && Qualifies(v, tags, channel, ignore)
    && forall w | Qualifies(w, tags, channel, ignore) :: AtMost(w, v)
  }

  lemma {:induction false} SelectQualifies(tags: seq<string>, channel: Channel, ignore: seq<string>)
    ensures var r := Select(tags, channel, ignore);
            match r
            case None => forall w :: !Qualifies(w, tags, channel, ignore)
            case Some(v) => IsMaximum(v, tags, channel, ignore)
  {
    if tags != [] {
      var rest := Select(tags[1..], channel, ignore);
      SelectQualifies(tags[1..], channel, ignore);
      forall w { QualifiesStep(w, tags, channel, ignore); }
      var c := Candidate(tags[0], channel, ignore);
      if c.Some? && rest.Some? {
        PrecedenceIsTotal(c.value, rest.value);
        forall w | Qualifies(w, tags[1..], channel, ignore) && Less(rest.value, c.value)
          ensures AtMost(w, c.value)
        {
          if w != rest.value { PrecedenceIsTransitive(w, rest.value, c.value); }
        }
      }
    }
  }

  /** The choice is the highest version that qualifies, and there is none exactly
      when nothing qualifies. */
  lemma SelectIsMaximum(tags: seq<string>, channel: Channel, ignore: seq<string>, v: Version)
    ensures Select(tags, channel, ignore) == Some(v) <==> IsMaximum(v, tags, channel, ignore)
    ensures Select(tags, channel, ignore) == None <==> forall w :: !Qualifies(w, tags, channel, ignore)
  {
    SelectQualifies(tags, channel, ignore);
    var r := Select(tags, channel, ignore);
    if r.Some? && IsMaximum(v, tags, channel, ignore) {
      PrecedenceIsTotal(v, r.value);
    }
  }

  ghost predicate NoHigher(a: Option<Version>, b: Option<Version>) {
    a.None? || (b.Some? && AtMost(a.value, b.value))
  }

  lemma QualifiesAmongMore(v: Version, few: seq<string>, many: seq<string>, channel: Channel, ignore: seq<string>)
    requires forall t | t in few :: t in many
    requires Qualifies(v, few, channel, ignore)
    ensures Qualifies(v, many, channel, ignore)
  {
    var i :| 0 <= i < |few| && Candidate(few[i], channel, ignore) == Some(v);
    assert few[i] in many;
  }

  /** Adding tags never lowers the choice. */
  lemma MoreTagsNeverLower(few: seq<string>, many: seq<string>, channel: Channel, ignore: seq<string>)
    requires forall t | t in few :: t in many
    ensures NoHigher(Select(few, channel, ignore), Select(many, channel, ignore))
  {
    SelectQualifies(few, channel, ignore);
    SelectQualifies(many, channel, ignore);
    var r := Select(few, channel, ignore);
    if r.Some? { QualifiesAmongMore(r.value, few, many, channel, ignore); }
  }

  /** Only the set of tags matters: not their order, not their repetitions. */
  lemma OrderAndCopiesIrrelevant(a: seq<string>, b: seq<string>, channel: Channel, ignore: seq<string>)
    requires forall t :: t in a <==> t in b
    ensures Select(a, channel, ignore) == Select(b, channel, ignore)
  {
    MoreTagsNeverLower(a, b, channel, ignore);
    MoreTagsNeverLower(b, a, channel, ignore);
    var r, s := Select(a, channel, ignore), Select(b, channel, ignore);
    if r.Some? && s.Some? { PrecedenceIsTotal(r.value, s.value); }
  }

  /** The stable answer is a release, and never above the latest answer. */
  lemma StableNotAboveLatest(tags: seq<string>, ignore: seq<string>)
    ensures NoHigher(Select(tags, Stable, ignore), Select(tags, Latest, ignore))
    ensures Select(tags, Stable, ignore).Some? ==> Select(tags, Stable, ignore).value.pre == []
  {
    SelectQualifies(tags, Stable, ignore);
    SelectQualifies(tags, Latest, ignore);
    var r := Select(tags, Stable, ignore);
    if r.Some? {
      var i :| 0 <= i < |tags| && Candidate(tags[i], Stable, ignore) == r;
      assert Candidate(tags[i], Latest, ignore) == r;
      assert Qualifies(r.value, tags, Latest, ignore);
    }
  }

  /** Dropping every tag that holds an ignored text beforehand changes nothing. */
  lemma IgnoredTagsDoNotMatter(tags: seq<string>, kept: seq<string>, channel: Channel, ignore: seq<string>)
    requires forall t :: t in kept <==> t in tags && !Ignored(t, ignore)
    ensures Select(kept, channel, ignore) == Select(tags, channel, ignore)
  {
    MoreTagsNeverLower(kept, tags, channel, ignore);
    SelectQualifies(kept, channel, ignore);
    SelectQualifies(tags, channel, ignore);
    var r, s := Select(kept, channel, ignore), Select(tags, channel, ignore);
    if s.Some? {
      var i :| 0 <= i < |tags| && Candidate(tags[i], channel, ignore) == s;
      assert tags[i] in kept;
      var j :| 0 <= j < |kept| && kept[j] == tags[i];
      assert Qualifies(s.value, kept, channel, ignore);
      PrecedenceIsTotal(r.value, s.value);
    }
  }

  /** What is published parses back, as a tag, to the version chosen. */
  lemma PublishedTextIsTheChoice(tags: seq<string>, channel: Channel, ignore: seq<string>)
    requires Select(tags, channel, ignore).Some?
    ensures ParseTag(ValueString(Select(tags, channel, ignore).value)) == Select(tags, channel, ignore)
  {
    SelectQualifies(tags, channel, ignore);
    var v := Select(tags, channel, ignore).value;
    var i :| 0 <= i < |tags| && Candidate(tags[i], channel, ignore) == Some(v);
    ParsedIsValid(if tags[i] != "" && (tags[i][0] == 'v' || tags[i][0] == 'V') then tags[i][1..] else tags[i]);
    ValueReadsBack(v);
    StartsWithDigit(v);
  }

  lemma StartsWithDigit(v: Version)
    ensures ValueString(v) != "" && '0' <= ValueString(v)[0] <= '9'
  {
    var first := Print(v.major);
    assert IsDigit(first[0]);
    assert Numbers(v)[0] == first[0];
  }

  // ----- What qualifies, and what is newest -----

  ghost predicate Occurs(pat: string, text: string) {
    exists front, back :: text == front + (pat + back)
  }

  lemma ContainsIff(text: string, pat: string)
    ensures Contains(text, pat) <==> Occurs(pat, text)
  {
    if i :| 0 <= i <= |text| && pat <= text[i..] {
      assert text == text[..i] + (pat + text[i + |pat|..]);
    }
    if front, back :| text == front + (pat + back) {
      assert text[|front|..] == pat + back;
    }
  }

  /** A tag stands for the version it prints, bare or behind one `v` or `V`. */
  lemma TagStandsFor(tag: string, v: Version)
    ensures ParseTag(tag) == Some(v) <==>
              Valid(v) && tag in {ValueString(v), "v" + ValueString(v), "V" + ValueString(v)}
  {
    var text := ValueString(v);
    StartsWithDigit(v);
    assert tag != "" ==> tag == [tag[0]] + tag[1..];
    ParseIsExact(tag, v);
    if tag != "" { ParseIsExact(tag[1..], v); }
  }

  lemma CandidateIff(tag: string, channel: Channel, ignore: seq<string>, v: Version)
    ensures Candidate(tag, channel, ignore) == Some(v) <==>
              && Valid(v) && tag in {ValueString(v), "v" + ValueString(v), "V" + ValueString(v)}
              && (channel == Stable ==> v.pre == [])
              && (forall pat | pat in ignore && pat != "" :: !Occurs(pat, tag))
  {
    TagStandsFor(tag, v);
    forall pat ensures Contains(tag, pat) <==> Occurs(pat, tag) { ContainsIff(tag, pat); }
    assert Ignored(tag, ignore) <==> exists pat :: pat in ignore && pat != "" && Occurs(pat, tag) by {
      if pat :| pat in ignore && pat != "" && Occurs(pat, tag) {
        var i :| 0 <= i < |ignore| && ignore[i] == pat;
      }
    }
  }

  /** A version qualifies when some tag spells it, holds no ignored text, and is on the
      channel. */
  lemma QualifiesMeans(v: Version, tags: seq<string>, channel: Channel, ignore: seq<string>)
    ensures Qualifies(v, tags, channel, ignore) <==>
              && Valid(v) && (channel == Stable ==> v.pre == [])
              && exists tag :: tag in tags && tag in {ValueString(v), "v" + ValueString(v), "V" + ValueString(v)}
                               && forall pat | pat in ignore && pat != "" :: !Occurs(pat, tag)
  {
    forall tag { CandidateIff(tag, channel, ignore, v); }
    if tag :| tag in tags && Candidate(tag, channel, ignore) == Some(v) {
      var i :| 0 <= i < |tags| && tags[i] == tag;
    }
  }

  /** Whatever else qualifies is older than the choice: lower numbers, the first that
      differs deciding; a pre-release of its release; or a lower pre-release. */
  lemma ChoiceIsNewest(tags: seq<string>, channel: Channel, ignore: seq<string>, v: Version, w: Version)
    requires Select(tags, channel, ignore) == Some(v) && Qualifies(w, tags, channel, ignore) && w != v
    ensures || w.major < v.major
            || (w.major == v.major && w.minor < v.minor)
            || (w.major == v.major && w.minor == v.minor && w.patch < v.patch)
            || (w.major == v.major && w.minor == v.minor && w.patch == v.patch
                && w.pre != [] && (v.pre == [] || FieldsAbove(v.pre, w.pre)))
  {
    SelectIsMaximum(tags, channel, ignore, v);
    FieldsLessIs(w.pre, v.pre);
  }

  lemma SelectTwo(s: string, t: string)
    ensures Select([s, t], Latest, []) == Higher(Candidate(s, Latest, []), Candidate(t, Latest, []))
  {
    assert [s, t][1..] == [t] && [t][1..] == [];
    assert Select([t], Latest, []) == Candidate(t, Latest, []);
  }

  /** The oracle prefers `t` to `s` whichever tag comes first. */
  predicate Prefers(s: string, t: string) {
    && Parse(s).Some? && Parse(t).Some?
    && Select([s, t], Latest, []) == Parse(t) && Select([t, s], Latest, []) == Parse(t)
  }

  lemma PreferredTo(a: Version, b: Version, s: string, t: string)
    requires Valid(a) && Valid(b) && Less(a, b) && s == ValueString(a) && t == ValueString(b)
    ensures Prefers(s, t)
  {
    ValueReadsBack(a);
    ValueReadsBack(b);
    CandidateIff(s, Latest, [], a);
    CandidateIff(t, Latest, [], b);
    PrecedenceIsTotal(a, b);
    SelectTwo(s, t);
    SelectTwo(t, s);
  }

  lemma Release(v: Version, s: string)
    requires v.pre == [] && v.major < 10 && v.minor < 10 && v.patch < 10
    requires s == [Digit(v.major)] + "." + [Digit(v.minor)] + "." + [Digit(v.patch)]
    ensures Valid(v) && ValueString(v) == s
  {
    ValueIsSpelled(v);
  }

  /** The examples of section 11 of Semantic Versioning 2.0.0: numbers ... */
  lemma NumbersChain()
    ensures Prefers("1.0.0", "2.0.0") && Prefers("2.0.0", "2.1.0") && Prefers("2.1.0", "2.1.1")
  {
    var a, b, c, d := Version(1, 0, 0, []), Version(2, 0, 0, []), Version(2, 1, 0, []), Version(2, 1, 1, []);
    Release(a, "1.0.0");
    Release(b, "2.0.0");
    Release(c, "2.1.0");
    Release(d, "2.1.1");
    PreferredTo(a, b, "1.0.0", "2.0.0");
    PreferredTo(b, c, "2.0.0", "2.1.0");
    PreferredTo(c, d, "2.1.0", "2.1.1");
  }

  predicate Spelled(v: Version, s: string) {
    Valid(v) && ValueString(v) == s
  }

  lemma SpelledPre(v: Version, s: string, id: Ident)
    requires Spelled(v, s) && |v.pre| <= 1 && ValidIdent(id)
    ensures Spelled(v.(pre := v.pre + [id]), s + (if v.pre == [] then "-" else ".") + PrintIdent(id))
  {
    var w := v.(pre := v.pre + [id]);
    ValueIsSpelled(w);
    assert w.pre[..|v.pre|] == v.pre && w.(pre := v.pre) == v;
  }

  function One(pre: seq<Ident>): Version {
    Version(1, 0, 0, pre)
  }

  lemma OneAlnum(s: string)
    requires ValidIdent(Alnum(s))
    ensures Spelled(One([Alnum(s)]), "1.0.0-" + s)
  {
    Release(One([]), "1.0.0");
    SpelledPre(One([]), "1.0.0", Alnum(s));
    assert [] + [Alnum(s)] == [Alnum(s)];
    assert "1.0.0" + "-" + s == "1.0.0-" + s;
  }

  lemma OneTwo(s: string, id: Ident, text: string)
    requires ValidIdent(Alnum(s)) && ValidIdent(id) && text == "1.0.0-" + s + "." + PrintIdent(id)
    ensures Spelled(One([Alnum(s), id]), text)
  {
    OneAlnum(s);
    SpelledPre(One([Alnum(s)]), "1.0.0-" + s, id);
    assert [Alnum(s)] + [id] == [Alnum(s), id];
  }

  const ALPHA := Alnum("alpha")
  const BETA := Alnum("beta")
  const RC := Alnum("rc")

  lemma Alnums()
    ensures forall s | s in {"alpha", "beta", "rc"} :: ValidIdent(Alnum(s))
  {
    forall s | s in {"alpha", "beta", "rc"} ensures ValidIdent(Alnum(s)) {
      assert !IsDigit(s[0]);
      assert forall i | 0 <= i < |s| :: IsIdentChar(s[i]);
    }
  }

  lemma Elevens()
    ensures Print(1) == "1" && Print(2) == "2" && Print(11) == "11"
  {
    PrintSpells(11);
  }

  lemma Longer(x: Ident, y: Ident)
    ensures PreLess([x], [x, y])
  {
    assert [x][1..] == [] && [x, y][1..] == [y];
  }

  lemma SecondField(x: Ident, y: Ident, z: Ident)
    requires IdentLess(y, z)
    ensures PreLess([x, y], [x, z])
  {
    assert [x, y][1..] == [y] && [x, z][1..] == [z];
  }

  lemma OnePreferred(a: seq<Ident>, b: seq<Ident>, s: string, t: string)
    requires Spelled(One(a), s) && Spelled(One(b), t) && PreLess(a, b)
    ensures Prefers(s, t)
  {
    PreferredTo(One(a), One(b), s, t);
  }

  lemma AlphaTexts()
    ensures Spelled(One([ALPHA]), "1.0.0-alpha") && Spelled(One([ALPHA, Num(1)]), "1.0.0-alpha.1")
  {
    Alnums();
    Elevens();
    OneAlnum("alpha");
    OneTwo("alpha", Num(1), "1.0.0-alpha.1");
  }

  lemma AlphaBetaText()
    ensures Spelled(One([ALPHA, BETA]), "1.0.0-alpha.beta")
  {
    Alnums();
    var tail := "." + PrintIdent(BETA);
    assert tail == ".beta";
    assert "1.0.0-" + "alpha" + "." + PrintIdent(BETA) == "1.0.0-alpha" + tail;
    OneTwo("alpha", BETA, "1.0.0-alpha.beta");
  }

  lemma BetaTexts()
    ensures Spelled(One([BETA]), "1.0.0-beta") && Spelled(One([BETA, Num(2)]), "1.0.0-beta.2")
    ensures Spelled(One([BETA, Num(11)]), "1.0.0-beta.11")
  {
    Alnums();
    Elevens();
    OneAlnum("beta");
    OneTwo("beta", Num(2), "1.0.0-beta.2");
    OneTwo("beta", Num(11), "1.0.0-beta.11");
  }

  lemma LastTexts()
    ensures Spelled(One([RC, Num(1)]), "1.0.0-rc.1") && Spelled(One([]), "1.0.0")
  {
    Alnums();
    Elevens();
    OneTwo("rc", Num(1), "1.0.0-rc.1");
    Release(One([]), "1.0.0");
  }

  lemma ChainOrder()
    ensures PreLess([ALPHA], [ALPHA, Num(1)]) && PreLess([ALPHA, Num(1)], [ALPHA, BETA])
    ensures PreLess([ALPHA, BETA], [BETA]) && PreLess([BETA], [BETA, Num(2)])
    ensures PreLess([BETA, Num(2)], [BETA, Num(11)]) && PreLess([BETA, Num(11)], [RC, Num(1)])
    ensures PreLess([RC, Num(1)], [])
  {
    Longer(ALPHA, Num(1));
    SecondField(ALPHA, Num(1), BETA);
    Longer(BETA, Num(2));
    SecondField(BETA, Num(2), Num(11));
  }

  /** ... and pre-releases. */
  lemma PreReleasesChain()
    ensures Prefers("1.0.0-alpha", "1.0.0-alpha.1") && Prefers("1.0.0-alpha.1", "1.0.0-alpha.beta")
    ensures Prefers("1.0.0-alpha.beta", "1.0.0-beta") && Prefers("1.0.0-beta", "1.0.0-beta.2")
    ensures Prefers("1.0.0-beta.2", "1.0.0-beta.11") && Prefers("1.0.0-beta.11", "1.0.0-rc.1")
    ensures Prefers("1.0.0-rc.1", "1.0.0")
  {
    AlphaTexts();
    AlphaBetaText();
    BetaTexts();
    LastTexts();
    ChainOrder();
    OnePreferred([ALPHA], [ALPHA, Num(1)], "1.0.0-alpha", "1.0.0-alpha.1");
    OnePreferred([ALPHA, Num(1)], [ALPHA, BETA], "1.0.0-alpha.1", "1.0.0-alpha.beta");
    OnePreferred([ALPHA, BETA], [BETA], "1.0.0-alpha.beta", "1.0.0-beta");
    OnePreferred([BETA], [BETA, Num(2)], "1.0.0-beta", "1.0.0-beta.2");
    OnePreferred([BETA, Num(2)], [BETA, Num(11)], "1.0.0-beta.2", "1.0.0-beta.11");
    OnePreferred([BETA, Num(11)], [RC, Num(1)], "1.0.0-beta.11", "1.0.0-rc.1");
    OnePreferred([RC, Num(1)], [], "1.0.0-rc.1", "1.0.0");
  }
}
