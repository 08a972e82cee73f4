/**
 * Where a bounce code is a code to the reference and none to the port, for bodies of one letter, its
 * accent and a code; and the law that settles the opt-out side of it: no keyword holds a digit, so a
 * body with two digits in it suppresses only by the imperative.
 */
module BounceAccents {
  import opened Common
  import opened Strings
  import opened TextFolding
  import opened EditDistance
  import opened Guardrails
  import opened ErrorCodes
  import opened ApexGuardrails
  import GuardrailAccents
  import ShortTexts

  // --- digits and keywords -----------------------------------------------------------

  function Digits(s: string): nat {
    if s == [] then 0 else (if Digit(s[0]) then 1 else 0) + Digits(s[1..])
  }

  predicate DigitFree(s: string) { forall i :: 0 <= i < |s| ==> !Digit(s[i]) }

  /** Every digit costs an edit against a text without digits. */
  lemma {:induction false} DigitsAreEdits(a: string, b: string)
    requires DigitFree(b)
    ensures Levenshtein(a, b) >= Digits(a)
    decreases |a| + |b|
  {
    if a == [] {
    } else if b == [] {
      DigitsAreFew(a);
    } else {
      DigitsAreEdits(a[1..], b[1..]);
      DigitsAreEdits(a[1..], b);
      DigitsAreEdits(a, b[1..]);
    }
  }

  lemma {:induction false} DigitsAreFew(s: string)
    ensures Digits(s) <= |s|
  {
    if s == [] {
    } else {
      DigitsAreFew(s[1..]);
    }
  }

  lemma {:induction false} DigitsDespaced(s: string)
    ensures Digits(Despace(s)) == Digits(s)
  {
    if s == [] {
    } else {
      DigitsDespaced(s[1..]);
      assert s[0] == ' ' ==> Despace(s) == Despace(s[1..]);
      assert s[0] != ' ' ==> Despace(s)[0] == s[0] && Despace(s)[1..] == Despace(s[1..]);
    }
  }

  lemma DigitsAreFar(text: string, keyword: string)
    requires Digits(text) >= 2 && DigitFree(keyword)
    ensures !Near(text, keyword)
  {
    DigitsAreEdits(text, keyword);
    DistanceZeroIsEquality(text, keyword);
  }

  lemma {:induction false} DespacedIsDigitFree(s: string)
    requires DigitFree(s)
    ensures DigitFree(Despace(s))
  {
    if s == [] {
    } else {
      DespacedIsDigitFree(s[1..]);
    }
  }

  lemma KeywordIsDigitFree(i: nat)
    requires i < |OPT_OUT_KEYWORDS|
    ensures DigitFree(OPT_OUT_KEYWORDS[i])
  {
  }

  lemma DigitsAreFarFrom(canon: string, keyword: string)
    requires Digits(canon) >= 2 && DigitFree(keyword)
    ensures !Near(canon, keyword) && !Near(Despace(canon), Despace(keyword))
  {
    DigitsDespaced(canon);
    DespacedIsDigitFree(keyword);
    DigitsAreFar(canon, keyword);
    DigitsAreFar(Despace(canon), Despace(keyword));
  }

  lemma DigitsAreNoKeyword(canon: string)
    requires Digits(canon) >= 2
    ensures !NearSomeKeyword(canon, Despace(canon), OPT_OUT_KEYWORDS)
  {
    var keywords := OPT_OUT_KEYWORDS;
    forall i | 0 <= i < |keywords|
      ensures !Near(canon, keywords[i]) && !Near(Despace(canon), Despace(keywords[i]))
    {
      KeywordIsDigitFree(i);
      DigitsAreFarFrom(canon, keywords[i]);
    }
  }

  /** A body with two digits in it, "stop 24/7" say, is an opt-out exactly when it opens with the imperative. */
  lemma TwoDigitsNeedTheImperative(body: string, thread: seq<Message>, channel: string)
    requires (channel == "sms" || channel == "email") && Digits(AlphanumericsOf(Fold(body))) >= 2
    ensures Suppresses(body, thread, channel) <==> OpensWithImperative(Canonicalize(Fold(body)))
  {
    var canon := Canonicalize(Fold(body));
    CanonicalizeMeaning(Fold(body));
    DigitsDespaced(canon);
    DigitsAreNoKeyword(canon);
    OptOutCharacterized(body, thread, channel);
  }

  // --- one letter, its accent, a code --------------------------------------------------

  /** A letter no accent composes with, the accent, and one of the five codes 550 to 554. */
  predicate AccentedCode(x: char, d: char) { LowerLetter(x) && Accented(x).None? && '0' <= d <= '4' }

  function CodeBody(x: char, d: char): string { [x, ACUTE, '5', '5', d] }

  lemma CodeBodyFolds(x: char, d: char)
    requires AccentedCode(x, d)
    ensures NothingComposes(CodeBody(x, d)) && Fold(CodeBody(x, d)) == CodeBody(x, d)
  {
    var body, code := CodeBody(x, d), ['5', '5', d];
    assert MapText(Compatibility, body) == body;
    assert body == [x] + ([ACUTE] + code);
    FoldAppend([x], [ACUTE] + code);
    FoldOfOne(x);
    FoldedStep(x);
    GuardrailAccents.FoldFromAccentExactly(code);
    FoldedIsFixed(code);
  }

  lemma CodeBodyReads(x: char, d: char)
    requires AccentedCode(x, d)
    ensures Canonicalize(CodeBody(x, d)) == [x, ' ', '5', '5', d]
  {
    var s := CodeBody(x, d);
    assert s[1..] == [ACUTE, '5', '5', d] && s[1..][1..] == ['5', '5', d];
    assert ['5', '5', d][1..] == ['5', d] && ['5', d][1..] == [d] && [d][1..] == [];
    assert CollapseRuns([d], false) == [d] && CollapseRuns(['5', d], false) == ['5', d];
    assert CollapseRuns(['5', '5', d], true) == ['5', '5', d];
    assert CollapseRuns(s, false) == [x, ' ', '5', '5', d];
  }

  lemma {:induction false} WordsOfOne(s: string, current: string)
    requires ' ' !in s && (s != [] || current != [])
    ensures Words(s, current) == [current + s]
  {
    if s == [] {
      assert current + s == current;
    } else {
      WordsOfOne(s[1..], current + [s[0]]);
      assert current + [s[0]] + s[1..] == current + s;
    }
  }

  lemma WordsOfCodeBody(x: char, d: char)
    requires AccentedCode(x, d)
    ensures Words([x, ' ', '5', '5', d], []) == [[x], ['5', '5', d]]
  {
    var s, code := [x, ' ', '5', '5', d], ['5', '5', d];
    assert s[1..] == [' '] + code && s[1..][1..] == code && [] + [x] == [x] && [] + code == code;
    WordsOfOne(code, []);
    assert Words(s[1..], [x]) == [[x]] + [code];
  }

  lemma {:induction false} NoLongPhraseIn(phrases: seq<string>, text: string)
    requires forall i :: 0 <= i < |phrases| ==> |phrases[i]| > |text|
    ensures FirstPhraseIn(phrases, text).None?
  {
    if phrases == [] {
    } else {
      NoLongPhraseIn(phrases[1..], text);
    }
  }

  lemma {:induction false} NoPrefixLike(prefixes: seq<string>, token: string)
    requires token != [] && forall i :: 0 <= i < |prefixes| ==> prefixes[i] != [] && prefixes[i][0] != token[0]
    ensures FirstPrefixOf(prefixes, token).None?
  {
    if prefixes == [] {
    } else {
      NoPrefixLike(prefixes[1..], token);
    }
  }

  predicate Unlisted(token: string) {
    token !in LEGAL_TOKENS && token !in HOSTILITY_WORDS && FirstPrefixOf(LEGAL_PREFIXES, token).None?
  }

  lemma LetterIsUnlisted(token: string)
    requires |token| == 1
    ensures Unlisted(token)
  {
    ShortTexts.NoPrefixOfShort(LEGAL_PREFIXES, token);
  }

  lemma NumberIsUnlisted(token: string)
    requires token != [] && Digit(token[0])
    ensures Unlisted(token)
  {
    NoPrefixLike(LEGAL_PREFIXES, token);
  }

  lemma {:induction false} UnlistedTokensMatchNothing(tokens: seq<string>)
    requires forall token <- tokens :: Unlisted(token)
    ensures FirstLegalToken(tokens).None? && FirstHostileWord(tokens).None?
  {
    if tokens == [] {
    } else {
      assert Unlisted(tokens[0]);
      UnlistedTokensMatchNothing(tokens[1..]);
    }
  }

  lemma CodeTokensMatchNothing(x: char, d: char)
    ensures FirstLegalToken([[x], ['5', '5', d]]).None? && FirstHostileWord([[x], ['5', '5', d]]).None?
  {
    LetterIsUnlisted([x]);
    NumberIsUnlisted(['5', '5', d]);
    UnlistedTokensMatchNothing([[x], ['5', '5', d]]);
  }

  lemma CodeBodyHitsNothingEarlier(x: char, d: char)
    requires AccentedCode(x, d)
    ensures !EarlierHit([x, ' ', '5', '5', d])
  {
    var canon := [x, ' ', '5', '5', d];
    WordsOfCodeBody(x, d);
    CodeTokensMatchNothing(x, d);
    NoLongPhraseIn(LEGAL_PHRASES, canon);
    NoLongPhraseIn(HOSTILITY_PHRASES, canon);
    NoLongPhraseIn(AUTOREPLY_MARKERS, canon);
    NoLongPhraseIn(BOUNCE_PHRASES, canon);
    assert Digits(canon) >= 2 by { CodeDigits(x, d); }
    DigitsAreNoKeyword(canon);
    FirstKeywordFound(canon, OPT_OUT_KEYWORDS);
    GuardrailAccents.ShortIsNoImperative(canon);
  }

  lemma CodeDigits(x: char, d: char)
    requires AccentedCode(x, d)
    ensures Digits([x, ' ', '5', '5', d]) == 3
  {
    var s := [x, ' ', '5', '5', d];
    assert s[1..] == [' ', '5', '5', d] && s[1..][1..] == ['5', '5', d];
    assert ['5', '5', d][1..] == ['5', d] && ['5', d][1..] == [d];
    assert Digits([d]) == 1 && Digits(['5', d]) == 2 && Digits(['5', '5', d]) == 3;
  }

  /** The only code of such a body starts after the accent, which touches it. */
  lemma OnlyTheTouchedCode(x: char, d: char)
    requires AccentedCode(x, d)
    ensures AnyCode(CodeBody(x, d)) && !AnyUntouchedCode(CodeBody(x, d))
  {
    var s := CodeBody(x, d);
    assert SmtpCodeAt(PythonWord, s, 2) == Some(s[2..5]);
    assert CodeAt(PythonWord, Smtp, s, 2).Some?;
    assert OnBase(s, 1) && AccentOnBase(s, 1) && Touched(s, 2, 3);
    forall code, i | 0 <= i <= |s| ensures UntouchedAt(code, s, i).None? {
      assert i != 2 ==> CodeAt(PythonWord, code, s, i).None?;
    }
  }

  lemma CodeBodyIsMissed(x: char, d: char)
    requires AccentedCode(x, d)
    ensures NothingComposes(CodeBody(x, d)) && OnlyTouchedCodes(CodeBody(x, d))
  {
    CodeBodyFolds(x, d);
    CodeBodyReads(x, d);
    CodeBodyHitsNothingEarlier(x, d);
    OnlyTheTouchedCode(x, d);
  }

  /** For each such letter and code the reference sends the email to a person and the port lets it proceed. */
  lemma AccentHidesACode(x: char, d: char)
    requires AccentedCode(x, d)
    ensures Evaluate(CodeBody(x, d), [], "email").Ok? && ApexEvaluate(Some(CodeBody(x, d)), Some(0), "email").Ok?
    ensures Evaluate(CodeBody(x, d), [], "email").value.rule == Some(BounceOrAutoreply)
    ensures ApexEvaluate(Some(CodeBody(x, d)), Some(0), "email").value == Verdict(Proceed, None, None)
  {
    CodeBodyIsMissed(x, d);
    TouchedCodesPart(CodeBody(x, d), 0);
    ChannelNames("email");
  }
}
