/**
 * Where zero-width characters and accents do change a verdict. NFKC composes a letter with the accent
 * right after it; a zero-width character between them, or the port's lack of NFKC, leaves both. A
 * composed letter is no letter to the canonical form, an uncomposed one is.
 */
module GuardrailAccents {
  import opened Common
  import opened TextFolding
  import opened EditDistance
  import opened Guardrails
  import opened ApexGuardrails

  predicate AllAlphanumeric(s: string) { forall i :: 0 <= i < |s| ==> Alphanumeric(s[i]) }

  // --- folded letters with one other character after them ----------------------------

  lemma {:induction false} LettersThen(s: string, c: char)
    requires AllAlphanumeric(s) && !Alphanumeric(c)
    ensures CollapseRuns(s + [c], false) == s + " "
    ensures AlphanumericsOf(s + [c]) == s
  {
    if s == [] {
      assert (s + [c])[1..] == [] && s + [c] == [c];
    } else {
      assert (s + [c])[1..] == s[1..] + [c];
      LettersThen(s[1..], c);
      assert [s[0]] + (s[1..] + " ") == s + " ";
    }
  }

  lemma CanonicalizeLettersThen(s: string, c: char)
    requires s != [] && AllAlphanumeric(s) && !Alphanumeric(c)
    ensures Canonicalize(s + [c]) == s && AlphanumericsOf(s + [c]) == s
  {
    LettersThen(s, c);
    var t := s + " ";
    assert t[0] == s[0] && t[|t| - 1] == ' ' && t[..|t| - 1] == s;
    assert Alphanumeric(s[0]) && Alphanumeric(s[|s| - 1]);
    assert StripLeft(t) == t && StripRight(s) == s && StripRight(t) == s;
  }

  // --- "stopq" is a keyword but one letter, "stopq" and a letter is not -----------------

  const STEM := "stopq"

  lemma StemSuppresses()
    ensures NearSomeKeyword(STEM, STEM, OPT_OUT_KEYWORDS)
  {
    assert CommonPrefix("stop", STEM) == 4 by {
      assert "stop"[1..] == "top" && "top"[1..] == "op" && "op"[1..] == "p" && "p"[1..] == "";
      assert STEM[1..] == "topq" && "topq"[1..] == "opq" && "opq"[1..] == "pq" && "pq"[1..] == "q";
    }
    assert WithinEditDistance1(STEM, "stop");
    WithinIsLevenshtein(STEM, "stop");
    assert OPT_OUT_KEYWORDS[0] == "stop" && Near(STEM, OPT_OUT_KEYWORDS[0]);
  }

  /** Two places apart from a keyword of its length: too far. */
  lemma TwoMismatches(text: string, keyword: string)
    requires |text| == |keyword| >= 4 && text[0] != keyword[0] && text[1] != keyword[1]
    ensures !Near(text, keyword)
  {
    WithinIsLevenshtein(text, keyword);
    var t, k := text[1..], keyword[1..];
    assert t[0] == text[1] && k[0] == keyword[1];
    assert Mismatches(text, keyword) == 1 + Mismatches(t, k) && Mismatches(t, k) == 1 + Mismatches(t[1..], k[1..]);
  }

  lemma OtherLength(text: string, keyword: string)
    requires |text| + 1 < |keyword| || |keyword| + 1 < |text|
    ensures !Near(text, keyword)
  {
    DistanceBoundsLengths(text, keyword);
  }

  /** One letter short of a keyword that already differs in its first letter, and in the next two. */
  lemma NotInserted(text: string, keyword: string)
    requires |keyword| == |text| + 1 && |text| >= 4 && text[0] != keyword[0] && text[0] != keyword[1]
    ensures !Near(text, keyword)
  {
    WithinIsLevenshtein(text, keyword);
    assert CommonPrefix(text, keyword) == 0;
    assert text[0..][0] == text[0] && keyword[1..][0] == keyword[1];
  }

  lemma NotStopall(text: string)
    requires |text| == 6 && text[..5] == STEM
    ensures !Near(text, "stopall")
  {
    WithinIsLevenshtein(text, "stopall");
    forall i | 0 <= i < 5 ensures text[i] == STEM[i] { assert text[..5][i] == text[i]; }
    var n := CommonPrefix(text, "stopall");
    CommonPrefixAgrees(text, "stopall");
    assert text[4] == 'q' && "stopall"[4] == 'a';
    assert n <= 4;
    assert n < 5 ==> (text[n..][4 - n] == 'q' && "stopall"[n + 1..][4 - n] == 'l');
  }

  lemma {:induction false} CommonPrefixAgrees(a: string, b: string)
    ensures a[..CommonPrefix(a, b)] == b[..CommonPrefix(a, b)]
    ensures forall i :: 0 <= i < CommonPrefix(a, b) ==> a[i] == b[i]
  {
    if a == [] || b == [] || a[0] != b[0] {
    } else {
      CommonPrefixAgrees(a[1..], b[1..]);
      forall i | 0 <= i < CommonPrefix(a, b) ensures a[i] == b[i] {
        assert i > 0 ==> a[i] == a[1..][i - 1] && b[i] == b[1..][i - 1];
      }
    }
  }

  lemma StemAndLetterIsNoKeyword(text: string)
    requires |text| == 6 && text[..5] == STEM
    ensures !NearSomeKeyword(text, text, OPT_OUT_KEYWORDS)
  {
    forall i | 0 <= i < 5 ensures text[i] == STEM[i] { assert text[..5][i] == text[i]; }
    NotStopall(text);
    TwoMismatches(text, "cancel");
    TwoMismatches(text, "revoke");
    TwoMismatches(text, "optout");
    NotInserted(text, "opt out");
    OtherLength(text, "stop");
    OtherLength(text, "unsubscribe");
    assert !Near(text, "end");
    OtherLength(text, "quit");
    OtherLength(text, "remove me");
    OtherLength(text, "removeme");
    FarFromAll(text);
  }

  /** Far from every keyword, and from the two phrases without their spaces. */
  lemma FarFromAll(text: string)
    requires forall i :: 0 <= i < |OPT_OUT_KEYWORDS| ==> !Near(text, OPT_OUT_KEYWORDS[i])
    requires !Near(text, "optout") && !Near(text, "removeme")
    ensures !NearSomeKeyword(text, text, OPT_OUT_KEYWORDS)
  {
    forall i | 0 <= i < |OPT_OUT_KEYWORDS|
      ensures !Near(text, OPT_OUT_KEYWORDS[i]) && !Near(text, Despace(OPT_OUT_KEYWORDS[i]))
    {
      if i < 8 { DespacedWord(i); }
      else if i == 8 { DespacedPhrase(); }
      else { DespacedRequest(); }
    }
  }

  lemma ShortIsNoImperative(canon: string)
    requires |canon| < 12
    ensures StopImperative(canon).None?
  {
    ShortIsNoOpening(PythonWord, canon, STOP_IMPERATIVES);
  }

  lemma {:induction false} ShortIsNoOpening(word: WordTest, canon: string, openings: seq<string>)
    requires forall i :: 0 <= i < |openings| ==> |canon| < |openings[i]|
    ensures FirstImperative(word, canon, openings).None?
  {
    if openings == [] {
    } else {
      ShortIsNoOpening(word, canon, openings[1..]);
    }
  }

  // --- what the two bodies fold to --------------------------------------------------------

  /** The letter a composing character stands for once folded. */
  lemma FoldedLetter(x: char)
    requires Accented(x).Some?
    ensures |PassStep(x)| == 1 && Alphanumeric(PassStep(x)[0])
    ensures |PassStep(Accented(x).value)| == 1 && !Alphanumeric(PassStep(Accented(x).value)[0])
    ensures PassStep(ACUTE) == [ACUTE] && !Alphanumeric(ACUTE)
  {
    FoldedBase(x);
    FoldedComposite(x);
    AccentStays();
  }

  lemma FoldedBase(x: char)
    requires Accented(x).Some?
    ensures |PassStep(x)| == 1 && Alphanumeric(PassStep(x)[0])
  {
    LetterStays(x);
    LetterFolds(x);
  }

  lemma LatinFolds(x: char)
    requires LowerLetter(x) || UpperLetter(x)
    ensures Alphanumeric(Unconfuse(CaseFold(x)))
  {
  }

  lemma TakesAnAccent(x: char)
    requires Accented(x).Some?
    ensures LowerLetter(x) || UpperLetter(x) || Lookalike(x).Some? || LowerLookalike(x).Some?
  {
  }

  lemma LookalikeFolds(x: char)
    requires Lookalike(x).Some?
    ensures Alphanumeric(Unconfuse(CaseFold(x)))
  {
  }

  lemma CapitalLookalikeFolds(x: char)
    requires LowerLookalike(x).Some?
    ensures Alphanumeric(Unconfuse(CaseFold(x)))
  {
  }

  lemma LetterFolds(x: char)
    requires Accented(x).Some?
    ensures Alphanumeric(Unconfuse(CaseFold(x)))
  {
    TakesAnAccent(x);
    if LowerLetter(x) || UpperLetter(x) {
      LatinFolds(x);
    } else if Lookalike(x).Some? {
      LookalikeFolds(x);
    } else {
      CapitalLookalikeFolds(x);
    }
  }

  lemma FoldedComposite(x: char)
    requires Accented(x).Some?
    ensures |PassStep(Accented(x).value)| == 1 && !Alphanumeric(PassStep(Accented(x).value)[0])
  {
    AccentedLetterStays(x);
    CompositeIsForeign(x);
  }

  lemma CompositeIsForeign(x: char)
    requires Accented(x).Some?
    ensures !Alphanumeric(Unconfuse(CaseFold(Accented(x).value)))
  {
    CompositeIsHigh(x);
    HighIsForeign(Accented(x).value);
  }

  lemma CompositeIsHigh(x: char)
    requires Accented(x).Some?
    ensures var k := Accented(x).value;
            k > '\U{7F}' && Lookalike(k).None? && LowerLookalike(k).None?
  {
  }

  lemma HighIsForeign(k: char)
    requires k > '\U{7F}' && Lookalike(k).None? && LowerLookalike(k).None?
    ensures !Alphanumeric(Unconfuse(CaseFold(k)))
  {
  }

  lemma StemFolds()
    ensures Fold(STEM) == STEM && AllAlphanumeric(STEM)
  {
    FoldedIsFixed(STEM);
  }

  /** Uncomposed, the letter stays among the letters. */
  lemma UncomposedBody(x: char)
    requires Accented(x).Some?
    ensures var t := STEM + PassStep(x) + [ACUTE];
            MatchOptOut(Canonicalize(t)).None?
  {
    FoldedLetter(x);
    var text := STEM + PassStep(x);
    assert text[..5] == STEM;
    CanonicalizeLettersThen(text, ACUTE);
    StemAndLetterIsNoKeyword(text);
    assert ' ' !in text;
    NothingToDespace(text);
    FirstKeywordFound(text, OPT_OUT_KEYWORDS);
    ShortIsNoImperative(text);
  }

  /** Composed, it is none, and the keyword is one letter away. */
  lemma ComposedBody(x: char)
    requires Accented(x).Some?
    ensures MatchOptOut(Canonicalize(STEM + PassStep(Accented(x).value))).Some?
  {
    FoldedLetter(x);
    StemFolds();
    var k := PassStep(Accented(x).value);
    assert k == [k[0]];
    CanonicalizeLettersThen(STEM, k[0]);
    NothingToDespace(STEM);
    StemSuppresses();
    FirstKeywordFound(STEM, OPT_OUT_KEYWORDS);
  }

  lemma FoldOfBodies(x: char, c: char)
    requires ZeroWidth(c) && Accented(Compatibility(x)).Some?
    ensures Fold(STEM + [x, ACUTE]) == STEM + PassStep(Accented(Compatibility(x)).value)
    ensures Fold(STEM + [x, c, ACUTE]) == STEM + PassStep(Compatibility(x)) + [ACUTE]
  {
    var y := Compatibility(x);
    StemFolds();
    FoldedLetter(y);
    assert x != ACUTE by { CompatibilityIsNoAccent(x); AccentsDoNotCompose(ACUTE); }
    FoldBeforePlain(STEM, [x, ACUTE]);
    ComposedPair(x, []);
    assert [x, ACUTE] + [] == [x, ACUTE] && Fold([]) == [];
    assert STEM + [x, c, ACUTE] == (STEM + [x]) + [c] + [ACUTE];
    ZeroWidthParts(STEM + [x], c, [ACUTE]);
    FoldBeforePlain(STEM, [x]);
    FoldOfOne(x);
    FoldOfOne(ACUTE);
    AccentsDoNotCompose(ACUTE);
  }

  // --- zero-width characters: the exact condition ---------------------------------------------

  predicate UnseenIn(before: string, x: char, c: char, y: char, after: string, thread: seq<Message>, channel: string) {
    Evaluate(before + [x, c, y] + after, thread, channel) == Evaluate(before + [x, y] + after, thread, channel)
  }

  ghost predicate InvisibleBetween(x: char, c: char, y: char) {
    forall before: string, after: string, thread: seq<Message>, channel: string ::
      OverAccentedAlphabet(before) && OverAccentedAlphabet(after) ==>
      UnseenIn(before, x, c, y, after, thread, channel)
  }

  /** The one body that shows it, with the empty text after it. */
  lemma SeenAfterTheStem(x: char, c: char)
    requires ZeroWidth(c) && Accented(Compatibility(x)).Some?
    ensures !UnseenIn(STEM, x, c, ACUTE, [], [], "sms")
  {
    ZeroWidthHidesAnOptOut(x, c);
    assert STEM + [x, c, ACUTE] + [] == STEM + [x, c, ACUTE] && STEM + [x, ACUTE] + [] == STEM + [x, ACUTE];
    SuppressionsDiffer(STEM + [x, c, ACUTE], STEM + [x, ACUTE]);
  }

  lemma SeenInTheStem(x: char, c: char)
    requires ZeroWidth(c) && Accented(Compatibility(x)).Some?
    ensures !InvisibleBetween(x, c, ACUTE)
  {
    SeenAfterTheStem(x, c);
    StemInAlphabet();
  }

  lemma SuppressionsDiffer(a: string, b: string)
    requires Suppresses(a, [], "sms") != Suppresses(b, [], "sms")
    ensures Evaluate(a, [], "sms") != Evaluate(b, [], "sms")
  {
  }

  lemma InvisibleElsewhere(x: char, c: char, y: char)
    requires ZeroWidth(c) && InAccentedAlphabet(x) && InAccentedAlphabet(y)
    requires !(y == ACUTE && Accented(Compatibility(x)).Some?)
    ensures InvisibleBetween(x, c, y)
  {
    forall before: string, after: string, thread: seq<Message>, channel: string
      | OverAccentedAlphabet(before) && OverAccentedAlphabet(after)
      ensures UnseenIn(before, x, c, y, after, thread, channel)
    {
      UnseenBetween(before, x, c, y, after, thread, channel);
    }
  }

  /**
   * Between two characters a zero-width one is invisible in every body, thread and channel exactly
   * when the second is no accent that the first composes with.
   */
  lemma ZeroWidthInvisibleIff(x: char, c: char, y: char)
    requires ZeroWidth(c) && InAccentedAlphabet(x) && InAccentedAlphabet(y)
    ensures InvisibleBetween(x, c, y) <==> !(y == ACUTE && Accented(Compatibility(x)).Some?)
  {
    if y == ACUTE && Accented(Compatibility(x)).Some? {
      SeenInTheStem(x, c);
    } else {
      InvisibleElsewhere(x, c, y);
    }
  }

  lemma StemInAlphabet()
    ensures OverAccentedAlphabet(STEM) && OverAccentedAlphabet([])
  {
  }

  lemma UnseenBetween(before: string, x: char, c: char, y: char, after: string, thread: seq<Message>, channel: string)
    requires ZeroWidth(c) && !(y == ACUTE && Accented(Compatibility(x)).Some?)
    requires InAccentedAlphabet(x) && InAccentedAlphabet(y)
    requires OverAccentedAlphabet(before) && OverAccentedAlphabet(after)
    ensures UnseenIn(before, x, c, y, after, thread, channel)
  {
    assert before + [x, c, y] + after == (before + [x]) + [c] + ([y] + after);
    assert before + [x, y] + after == (before + [x]) + ([y] + after);
    ZeroWidthIsInvisible(before + [x], c, [y] + after, thread, channel);
  }

  /** For every letter that composes: "stopq", the letter and its accent suppress, with the character between not. */
  lemma ZeroWidthHidesAnOptOut(x: char, c: char)
    requires ZeroWidth(c) && Accented(Compatibility(x)).Some?
    ensures Suppresses(STEM + [x, ACUTE], [], "sms")
    ensures !Suppresses(STEM + [x, c, ACUTE], [], "sms")
  {
    FoldOfBodies(x, c);
    ComposedBody(Compatibility(x));
    UncomposedBody(Compatibility(x));
    JudgeSuppresses(STEM + [x, ACUTE], false, false);
    JudgeSuppresses(STEM + [x, c, ACUTE], false, false);
  }

  /** The other way round: the accented "end" alone is no keyword, taken apart it is one. */
  lemma AccentedEnd(c: char)
    requires ZeroWidth(c)
    ensures Suppresses(['e', c, ACUTE, 'n', 'd'], [], "sms")
    ensures !Suppresses(['e', ACUTE, 'n', 'd'], [], "sms")
  {
    EndTakenApart(c);
    EndComposed();
    var apart, whole := ['e', ACUTE, 'n', 'd'], ['\U{E9}', 'n', 'd'];
    assert AlphanumericsOf(apart) == "end" by { EndLetters(); }
    ScatteredKeywordSuppresses(['e', c, ACUTE, 'n', 'd'], [], "sms", 4);
    EndWholeIsNoKeyword();
    JudgeSuppresses(['e', ACUTE, 'n', 'd'], false, false);
  }

  lemma EndTakenApart(c: char)
    requires ZeroWidth(c)
    ensures Fold(['e', c, ACUTE, 'n', 'd']) == ['e', ACUTE, 'n', 'd']
  {
    assert ['e', c, ACUTE, 'n', 'd'] == ['e'] + [c] + [ACUTE, 'n', 'd'];
    ZeroWidthParts(['e'], c, [ACUTE, 'n', 'd']);
    FoldedIsFixed(['e']);
    AccentedTailFolds();
    assert ['e'] + [ACUTE, 'n', 'd'] == ['e', ACUTE, 'n', 'd'];
  }

  lemma FoldFromAccentExactly(q: string)
    ensures Fold([ACUTE] + q) == [ACUTE] + Fold(q)
  {
    AccentsDoNotCompose(ACUTE);
    assert [] + [ACUTE] == [ACUTE];
    FoldAfterUnaccentable([], ACUTE, q);
    FoldOfOne(ACUTE);
    FoldedLetter('e');
  }

  lemma AccentedTailFolds()
    ensures Fold([ACUTE, 'n', 'd']) == [ACUTE, 'n', 'd']
  {
    FoldFromAccentExactly("nd");
    FoldedIsFixed("nd");
    assert [ACUTE] + "nd" == [ACUTE, 'n', 'd'];
  }

  lemma EndComposed()
    ensures Fold(['e', ACUTE, 'n', 'd']) == ['\U{E9}', 'n', 'd']
  {
    assert ['e', ACUTE, 'n', 'd'] == ['e', ACUTE] + "nd";
    ComposedPair('e', "nd");
    FoldedIsFixed("nd");
    assert ['\U{E9}'] + "nd" == ['\U{E9}', 'n', 'd'];
  }

  lemma EndLetters()
    ensures AlphanumericsOf(['e', ACUTE, 'n', 'd']) == "end"
  {
    var s := ['e', ACUTE, 'n', 'd'];
    assert s[1..] == [ACUTE, 'n', 'd'] && s[1..][1..] == "nd" && "nd"[1..] == "d" && "d"[1..] == "";
    assert AlphanumericsOf("d") == "d" && AlphanumericsOf("nd") == "nd";
    assert AlphanumericsOf([ACUTE, 'n', 'd']) == "nd";
  }

  lemma EndWholeIsNoKeyword()
    ensures MatchOptOut(Canonicalize(['\U{E9}', 'n', 'd'])).None?
  {
    EndWholeReads();
    NothingToDespace("nd");
    NdIsNoKeyword();
    FirstKeywordFound("nd", OPT_OUT_KEYWORDS);
    ShortIsNoImperative("nd");
  }

  lemma EndWholeReads()
    ensures Canonicalize(['\U{E9}', 'n', 'd']) == "nd"
  {
    var s := ['\U{E9}', 'n', 'd'];
    assert s[1..] == "nd" && "nd"[1..] == "d" && "d"[1..] == "";
    assert CollapseRuns("d", false) == "d" && CollapseRuns("nd", true) == "nd" && CollapseRuns(s, false) == " nd";
    assert " nd"[1..] == "nd";
  }

  lemma NdIsNoKeyword()
    ensures !NearSomeKeyword("nd", "nd", OPT_OUT_KEYWORDS)
  {
    forall i | 0 <= i < |OPT_OUT_KEYWORDS| ensures !Near("nd", OPT_OUT_KEYWORDS[i]) {
      if i != 4 { OtherLength("nd", OPT_OUT_KEYWORDS[i]); }
    }
    OtherLength("nd", "optout");
    OtherLength("nd", "removeme");
    FarFromAll("nd");
  }

  // --- the port composes nothing ---------------------------------------------------------------

  /** For every letter that composes the two implementations part: the reference suppresses, the port does not. */
  lemma AccentsPartTheImplementations(x: char)
    requires InAlphabet(x) && Accented(Compatibility(x)).Some?
    ensures Suppresses(STEM + [x, ACUTE], [], "sms")
    ensures ApexEvaluate(Some(STEM + [x, ACUTE]), Some(0), "sms").Ok?
    ensures ApexEvaluate(Some(STEM + [x, ACUTE]), Some(0), "sms").value.action != SuppressAndStop
  {
    var y := Compatibility(x);
    ZeroWidthHidesAnOptOut(x, '\U{200B}');
    ApexFoldOfBody(x);
    UncomposedBody(y);
    PortIsNotSuppressing(STEM + [x, ACUTE]);
  }

  lemma PortIsNotSuppressing(body: string)
    requires MatchOptOut(Canonicalize(ApexFold(body))).None?
    ensures ApexEvaluate(Some(body), Some(0), "sms").Ok?
    ensures ApexEvaluate(Some(body), Some(0), "sms").value.action != SuppressAndStop
  {
    PortSuppressesIff(body, Some(0), false);
    ChannelNames("sms");
  }

  lemma BodyInAlphabet(x: char)
    requires InAlphabet(x)
    ensures OverAccentedAlphabet(STEM + [x, ACUTE])
  {
    var body := STEM + [x, ACUTE];
    forall i | 0 <= i < |body| ensures InAccentedAlphabet(body[i]) {
      assert i < 5 ==> body[i] == STEM[i];
    }
  }

  lemma ApexFoldOfBody(x: char)
    requires InAlphabet(x) && Accented(Compatibility(x)).Some?
    ensures ApexFold(STEM + [x, ACUTE]) == STEM + PassStep(Compatibility(x)) + [ACUTE]
  {
    var body, y := STEM + [x, ACUTE], Compatibility(x);
    BodyInAlphabet(x);
    ApexFoldIsUncomposed(body);
    AccentsDoNotCompose(ACUTE);
    StemPasses();
    assert MapText(Compatibility, body) == STEM + ([y] + [ACUTE]);
    PassesAppend(STEM, [y] + [ACUTE]);
    PassesAppend([y], [ACUTE]);
    PassesOfOne(y);
    PassesOfOne(ACUTE);
    FoldedLetter(y);
  }

  lemma StemPasses()
    ensures FoldPasses(STEM) == STEM
  {
    StemFolds();
    assert MapText(Compatibility, STEM) == STEM;
    NoAccentNoPair(STEM);
    ComposeStable(STEM);
  }
}
