/**
 * The Apex port of the guardrails (OutreachGuardrails.cls): the same tables and patterns, but
 * its own fold, its own split, a caller-supplied auto-reply count, a nullable body, and string
 * equality that ignores case. The theorem is that it still gives the reference's verdict.
 */
module ApexGuardrails {
  import opened Common
  import opened TextFolding
  import opened EditDistance
  import opened ErrorCodes
  import opened Guardrails

  /** Apex `==` on strings. */
  predicate SameIgnoringCase(a: string, b: string) { MapText(ApexLower, a) == MapText(ApexLower, b) }

  predicate ApexWithinEditDistance1(a: string, b: string) {
    if SameIgnoringCase(a, b) then true
    else if |a| == |b| then Mismatches(a, b) == 1
    else if |b| == |a| + 1 then ApexOneInsertion(a, b)
    else if |a| == |b| + 1 then ApexOneInsertion(b, a)
    else false
  }

  predicate ApexOneInsertion(short: string, long: string)
    requires |long| == |short| + 1
  {
    var prefix := CommonPrefix(short, long);
    SameIgnoringCase(short[prefix..], long[prefix + 1..])
  }

  predicate ApexFuzzyWholeMatch(text: string, keyword: string) {
    SameIgnoringCase(text, keyword) || (|keyword| >= MIN_FUZZY_LENGTH && ApexWithinEditDistance1(text, keyword))
  }

  function ApexFirstKeyword(canon: string, keywords: seq<string>): Option<string> {
    if keywords == [] then None
    else if ApexFuzzyWholeMatch(canon, keywords[0]) then Some(keywords[0])
    else if ApexFuzzyWholeMatch(Despace(canon), Despace(keywords[0])) then Some(keywords[0])
    else ApexFirstKeyword(canon, keywords[1..])
  }

  function ApexMatchOptOut(canon: string): Option<string> {
    match ApexFirstKeyword(canon, OPT_OUT_KEYWORDS)
    case Some(keyword) => Some(keyword)
    case None => FirstImperative(JavaWord, canon, STOP_IMPERATIVES)
  }

  /** The pieces between single spaces, empty ones included. */
  function Pieces(s: string, current: string): (r: seq<string>)
    ensures |r| > 0
  {
    if s == [] then [current]
    else if s[0] == ' ' then [current] + Pieces(s[1..], [])
    else Pieces(s[1..], current + [s[0]])
  }

  function DropTrailingEmpties(pieces: seq<string>): seq<string> {
    if pieces != [] && pieces[|pieces| - 1] == [] then DropTrailingEmpties(pieces[..|pieces| - 1]) else pieces
  }

  /** `String.split(' ')`: trailing empties dropped, but a text without a space is kept whole. */
  function ApexSplit(s: string): seq<string> {
    if ' ' in s then DropTrailingEmpties(Pieces(s, [])) else [s]
  }

  /** The port's rule sequence, branch by branch, over what its matchers find. */
  function ApexChoose(optOut: Option<string>, legal: Option<string>, hostility: Option<string>,
                      bounce: Option<string>, priorAutoReplies: Option<int>): Verdict
  {
    match optOut
    case Some(hit) => Verdict(SuppressAndStop, Some(OptOut), Some(hit))
    case None =>
      match legal
      case Some(hit) => Verdict(HumanReview, Some(LegalEscalation), Some(hit))
      case None =>
        match hostility
        case Some(hit) => Verdict(HumanReview, Some(Hostility), Some(hit))
        case None =>
          match bounce
          case Some(hit) => Verdict(HumanReview, Some(BounceOrAutoreply), Some(hit))
          case None =>
            if priorAutoReplies.Some? && priorAutoReplies.value >= 2 then
              Verdict(HumanReview, Some(LoopBreaker), Some("2 auto-replies in thread"))
            else Verdict(Proceed, None, None)
  }

  function ApexJudge(body: string, priorAutoReplies: Option<int>, isEmail: bool): Verdict {
    var folded := ApexFold(body);
    var canon := Canonicalize(folded);
    var tokens := ApexSplit(canon);
    ApexChoose(ApexMatchOptOut(canon), MatchLegal(canon, tokens), MatchHostility(canon, tokens),
               MatchBounceOrAutoreply(JavaWord, canon, folded, isEmail), priorAutoReplies)
  }

  function ApexEvaluate(body: Option<string>, priorAutoReplies: Option<int>, channel: string): Result<Verdict, Failure>
  {
    if !SameIgnoringCase(channel, "sms") && !SameIgnoringCase(channel, "email") then Err(UnknownChannel(channel))
    else Ok(ApexJudge(OrEmpty(body), priorAutoReplies, SameIgnoringCase(channel, "email")))
  }

  // --- case-insensitive equality is equality on canonical text ------------------------------

  predicate Caseless(s: string) { forall i :: 0 <= i < |s| ==> Alphanumeric(s[i]) || s[i] == ' ' }

  lemma CaselessEquality(a: string, b: string)
    requires Caseless(a) && Caseless(b)
    ensures SameIgnoringCase(a, b) <==> a == b
  {
    forall s: string | Caseless(s) ensures MapText(ApexLower, s) == s {
      forall i | 0 <= i < |s| ensures ApexLower(s[i]) == s[i] { CaselessLower(s[i]); }
    }
  }

  lemma CaselessLower(c: char)
    requires Alphanumeric(c) || c == ' '
    ensures ApexLower(c) == c
  {
  }

  lemma FuzzyMatchesAgree(text: string, keyword: string)
    requires Caseless(text) && Caseless(keyword)
    ensures ApexFuzzyWholeMatch(text, keyword) <==> FuzzyWholeMatch(text, keyword)
  {
    CaselessEquality(text, keyword);
    if |keyword| == |text| + 1 {
      var prefix := CommonPrefix(text, keyword);
      CaselessEquality(text[prefix..], keyword[prefix + 1..]);
    } else if |text| == |keyword| + 1 {
      var prefix := CommonPrefix(keyword, text);
      CaselessEquality(keyword[prefix..], text[prefix + 1..]);
    }
  }

  lemma {:induction false} DespaceIsCaseless(s: string)
    requires Caseless(s)
    ensures Caseless(Despace(s))
  {
    if s == [] {
    } else {
      DespaceIsCaseless(s[1..]);
    }
  }

  lemma {:induction false} KeywordSearchesAgree(canon: string, keywords: seq<string>)
    requires Caseless(canon) && forall i :: 0 <= i < |keywords| ==> Caseless(keywords[i])
    ensures ApexFirstKeyword(canon, keywords) == FirstKeyword(canon, keywords)
  {
    if keywords == [] {
    } else {
      DespaceIsCaseless(canon);
      DespaceIsCaseless(keywords[0]);
      FuzzyMatchesAgree(canon, keywords[0]);
      FuzzyMatchesAgree(Despace(canon), Despace(keywords[0]));
      KeywordSearchesAgree(canon, keywords[1..]);
    }
  }

  // --- the two splits ---------------------------------------------------------------------------

  lemma {:induction false} PiecesAreWords(s: string, current: string)
    requires forall i :: 0 <= i < |s| - 1 ==> s[i] != ' ' || s[i + 1] != ' '
    requires s != [] ==> s[|s| - 1] != ' '
    requires current == [] ==> s != [] && s[0] != ' '
    ensures Pieces(s, current) == Words(s, current)
    ensures forall piece <- Pieces(s, current) :: piece != []
  {
    if s == [] {
    } else {
      PiecesAreWords(s[1..], if s[0] == ' ' then [] else current + [s[0]]);
    }
  }

  lemma {:induction false} PiecesOfOneWord(s: string, current: string)
    requires ' ' !in s
    ensures Pieces(s, current) == [current + s]
  {
    if s == [] {
      assert current + s == current;
    } else {
      PiecesOfOneWord(s[1..], current + [s[0]]);
      assert current + [s[0]] + s[1..] == current + s;
    }
  }

  lemma SplitsAgree(canon: string)
    requires Canonical(canon) && canon != []
    ensures ApexSplit(canon) == Words(canon, [])
  {
    PiecesAreWords(canon, []);
    var pieces := Pieces(canon, []);
    assert pieces[|pieces| - 1] in pieces;
    if ' ' !in canon {
      PiecesOfOneWord(canon, []);
      assert [] + canon == canon;
    }
  }

  /** The port's single empty token on an empty text matches nothing, like no token at all. */
  lemma EmptyTokenMatchesNothing(canon: string)
    ensures MatchLegal(canon, [""]) == MatchLegal(canon, [])
    ensures MatchHostility(canon, [""]) == MatchHostility(canon, [])
  {
    assert [""][1..] == [];
    NoPrefixOfEmpty(LEGAL_PREFIXES);
    assert FirstLegalToken([""]) == FirstLegalToken([]);
    assert FirstHostileWord([""]) == FirstHostileWord([]);
  }

  lemma {:induction false} NoPrefixOfEmpty(prefixes: seq<string>)
    requires forall i :: 0 <= i < |prefixes| ==> prefixes[i] != ""
    ensures FirstPrefixOf(prefixes, "") == None
  {
    if prefixes == [] {
    } else {
      NoPrefixOfEmpty(prefixes[1..]);
    }
  }

  // --- the drift theorem --------------------------------------------------------------------------

  lemma TokenRulesAgree(canon: string)
    requires Canonical(canon)
    ensures MatchLegal(canon, ApexSplit(canon)) == MatchLegal(canon, Words(canon, []))
    ensures MatchHostility(canon, ApexSplit(canon)) == MatchHostility(canon, Words(canon, []))
  {
    if canon == [] {
      EmptyTokenMatchesNothing(canon);
    } else {
      SplitsAgree(canon);
    }
  }

  /** Canonical text holds no accent, so both word tests read it alike. */
  lemma {:induction false} ImperativesAgree(canon: string, openings: seq<string>)
    requires Canonical(canon)
    ensures FirstImperative(JavaWord, canon, openings) == FirstImperative(PythonWord, canon, openings)
  {
    if openings == [] {
    } else {
      WordsAlike(canon, |openings[0]| - 1);
      WordsAlike(canon, |openings[0]|);
      ImperativesAgree(canon, openings[1..]);
    }
  }

  lemma OptOutRulesAgree(canon: string)
    requires Canonical(canon)
    ensures ApexMatchOptOut(canon) == MatchOptOut(canon)
  {
    KeywordSearchesAgree(canon, OPT_OUT_KEYWORDS);
    ImperativesAgree(canon, STOP_IMPERATIVES);
  }

  lemma ChannelNames(channel: string)
    ensures channel == "sms" ==> SameIgnoringCase(channel, "sms") && !SameIgnoringCase(channel, "email")
    ensures channel == "email" ==> SameIgnoringCase(channel, "email")
  {
    assert |MapText(ApexLower, "sms")| == 3 && |MapText(ApexLower, "email")| == 5;
  }

  lemma ChoicesAgree(optOut: Option<string>, legal: Option<string>, hostility: Option<string>, bounce: Option<string>,
                     count: nat)
    ensures ApexChoose(optOut, legal, hostility, bounce, Some(count)) ==
            FirstRule(optOut, legal, hostility, bounce, count >= 2)
  {
  }

  /** Text over the alphabet and the accent in which no letter stands right before an accent it takes. */
  ghost predicate NothingComposes(body: string) {
    OverAccentedAlphabet(body) && !Composable(MapText(Compatibility, body))
  }

  lemma PlainTextComposesNothing(body: string)
    requires OverAlphabet(body)
    ensures NothingComposes(body)
  {
    PlainIsAccentFree(body);
    NoAccentNoPair(MapText(Compatibility, body));
  }

  lemma ChoiceSuppressesIff(optOut: Option<string>, legal: Option<string>, hostility: Option<string>,
                            bounce: Option<string>, priorAutoReplies: Option<int>)
    ensures ApexChoose(optOut, legal, hostility, bounce, priorAutoReplies).action == SuppressAndStop <==> optOut.Some?
  {
  }

  /** On any body the port suppresses exactly what the opt-out rule matches in its own fold. */
  lemma PortSuppressesIff(body: string, priorAutoReplies: Option<int>, isEmail: bool)
    ensures ApexJudge(body, priorAutoReplies, isEmail).action == SuppressAndStop <==>
            MatchOptOut(Canonicalize(ApexFold(body))).Some?
  {
    var folded := ApexFold(body);
    var canon := Canonicalize(folded);
    var tokens := ApexSplit(canon);
    CanonicalizeMeaning(folded);
    OptOutRulesAgree(canon);
    ChoiceSuppressesIff(ApexMatchOptOut(canon), MatchLegal(canon, tokens), MatchHostility(canon, tokens),
                        MatchBounceOrAutoreply(JavaWord, canon, folded, isEmail), priorAutoReplies);
  }

  /** A rule or a phrase decides before the codes of an email are looked at. */
  predicate EarlierHit(canon: string) {
    var tokens := Words(canon, []);
    || MatchOptOut(canon).Some? || MatchLegal(canon, tokens).Some? || MatchHostility(canon, tokens).Some?
    || FirstPhraseIn(AUTOREPLY_MARKERS, canon).Some? || FirstPhraseIn(BOUNCE_PHRASES, canon).Some?
  }

  /** Some rule or phrase decides before the codes do, or the first code is the first that no accent touches. */
  predicate CodesReadAlike(body: string) {
    var folded := Fold(body);
    EarlierHit(Canonicalize(folded)) || FirstCode(PythonWord, folded) == FirstUntouchedCode(folded)
  }

  /** The reference bounces an email for its codes, and an accent touches each of them. */
  predicate OnlyTouchedCodes(body: string) {
    var folded := Fold(body);
    !EarlierHit(Canonicalize(folded)) && AnyCode(folded) && !AnyUntouchedCode(folded)
  }

  /** What the two find for a bounce, everything before it being equal. */
  lemma BouncesAgreeIff(optOut: Option<string>, legal: Option<string>, hostility: Option<string>,
                        ours: Option<string>, theirs: Option<string>, looping: bool)
    ensures FirstRule(optOut, legal, hostility, ours, looping) == FirstRule(optOut, legal, hostility, theirs, looping)
       <==> optOut.Some? || legal.Some? || hostility.Some? || ours == theirs
  {
  }

  /** The port's verdict is the reference's rule sequence over the port's search for codes. */
  lemma PortJudges(body: string, count: nat, isEmail: bool)
    requires NothingComposes(body)
    ensures var canon := Canonicalize(Fold(body));
            var tokens := Words(canon, []);
            ApexJudge(body, Some(count), isEmail) ==
            FirstRule(MatchOptOut(canon), MatchLegal(canon, tokens), MatchHostility(canon, tokens),
                      MatchBounceOrAutoreply(JavaWord, canon, Fold(body), isEmail), count >= 2)
  {
    FoldsAgreeIffNothingComposes(body);
    var canon := Canonicalize(Fold(body));
    CanonicalizeMeaning(Fold(body));
    OptOutRulesAgree(canon);
    TokenRulesAgree(canon);
    var tokens := Words(canon, []);
    ChoicesAgree(MatchOptOut(canon), MatchLegal(canon, tokens), MatchHostility(canon, tokens),
                 MatchBounceOrAutoreply(JavaWord, canon, Fold(body), isEmail), count);
  }

  lemma JudgmentsAgreeIff(body: string, count: nat, isEmail: bool)
    requires NothingComposes(body)
    ensures ApexJudge(body, Some(count), isEmail) == Judge(body, count >= 2, isEmail) <==>
            !isEmail || CodesReadAlike(body)
  {
    PortJudges(body, count, isEmail);
    CodesFound(Fold(body));
    var canon := Canonicalize(Fold(body));
    var tokens := Words(canon, []);
    BouncesAgreeIff(MatchOptOut(canon), MatchLegal(canon, tokens), MatchHostility(canon, tokens),
                    MatchBounceOrAutoreply(PythonWord, canon, Fold(body), isEmail),
                    MatchBounceOrAutoreply(JavaWord, canon, Fold(body), isEmail), count >= 2);
  }

  /** The rule sequence with and without a bounce, nothing before it having fired. */
  lemma BounceDecides(bounce: Option<string>, looping: bool)
    ensures bounce.Some? ==>
            FirstRule(None, None, None, bounce, looping) == Verdict(HumanReview, Some(BounceOrAutoreply), bounce)
    ensures FirstRule(None, None, None, None, looping) ==
            if looping then Verdict(HumanReview, Some(LoopBreaker), Some("2 auto-replies in thread"))
            else Verdict(Proceed, None, None)
  {
  }

  /** Where nothing earlier hits, an email's codes decide. */
  lemma CodesDecide(body: string, count: nat)
    requires NothingComposes(body) && !EarlierHit(Canonicalize(Fold(body)))
    ensures Judge(body, count >= 2, true) == FirstRule(None, None, None, FirstCode(PythonWord, Fold(body)), count >= 2)
    ensures ApexJudge(body, Some(count), true)
         == FirstRule(None, None, None, FirstCode(JavaWord, Fold(body)), count >= 2)
  {
    PortJudges(body, count, true);
  }

  /** The email whose only codes an accent touches: bounced by the reference, not by the port. */
  lemma TouchedCodesPart(body: string, count: nat)
    requires NothingComposes(body) && OnlyTouchedCodes(body)
    ensures Judge(body, count >= 2, true).rule == Some(BounceOrAutoreply)
    ensures ApexJudge(body, Some(count), true).rule == if count >= 2 then Some(LoopBreaker) else None
    ensures count < 2 ==> ApexJudge(body, Some(count), true) == Verdict(Proceed, None, None)
  {
    CodesFound(Fold(body));
    CodesDecide(body, count);
    BounceDecides(FirstCode(PythonWord, Fold(body)), count >= 2);
  }

  /** In every other email both sides name one rule, though the code they quote can differ. */
  lemma OtherwiseOneRule(body: string, count: nat)
    requires NothingComposes(body) && !OnlyTouchedCodes(body)
    ensures Judge(body, count >= 2, true).rule == ApexJudge(body, Some(count), true).rule
  {
    CodesFound(Fold(body));
    if EarlierHit(Canonicalize(Fold(body))) {
      JudgmentsAgreeIff(body, count, true);
    } else {
      CodesDecide(body, count);
      BounceDecides(FirstCode(PythonWord, Fold(body)), count >= 2);
      BounceDecides(FirstCode(JavaWord, Fold(body)), count >= 2);
    }
  }

  /** The rules the two name for an email differ exactly when only codes that an accent touches bounce it. */
  lemma RulesDifferIff(body: string, thread: seq<Message>)
    requires NothingComposes(body)
    ensures Evaluate(body, thread, "email").Ok? && ApexEvaluate(Some(body), Some(AutoReplyCount(thread)), "email").Ok?
    ensures var ours := Evaluate(body, thread, "email").value;
            var theirs := ApexEvaluate(Some(body), Some(AutoReplyCount(thread)), "email").value;
            ours.rule != theirs.rule <==> OnlyTouchedCodes(body)
  {
    ChannelNames("email");
    if OnlyTouchedCodes(body) {
      TouchedCodesPart(body, AutoReplyCount(thread));
    } else {
      OtherwiseOneRule(body, AutoReplyCount(thread));
    }
  }

  /** Every body in which nothing composes, every thread, both channels: one verdict, but for such codes. */
  lemma ImplementationsAgreeIff(body: string, thread: seq<Message>, channel: string)
    requires NothingComposes(body)
    requires channel == "sms" || channel == "email"
    ensures ApexEvaluate(Some(body), Some(AutoReplyCount(thread)), channel) == Evaluate(body, thread, channel)
       <==> channel == "sms" || CodesReadAlike(body)
  {
    ChannelNames(channel);
    JudgmentsAgreeIff(body, AutoReplyCount(thread), channel == "email");
  }

  lemma PlainCodesReadAlike(body: string)
    requires OverAlphabet(body)
    ensures CodesReadAlike(body)
  {
    FoldLeavesLowerAscii(body);
    PlainCodesAlike(Fold(body));
  }

  /** Over the alphabet both implementations name, every body, thread and channel: one verdict. */
  lemma ImplementationsAgree(body: string, thread: seq<Message>, channel: string)
    requires OverAlphabet(body)
    requires channel == "sms" || channel == "email"
    ensures ApexEvaluate(Some(body), Some(AutoReplyCount(thread)), channel) == Evaluate(body, thread, channel)
  {
    PlainTextComposesNothing(body);
    PlainCodesReadAlike(body);
    ImplementationsAgreeIff(body, thread, channel);
  }

  /**
   * The channel check is where else the two can part: the port ignores case there, the reference does
   * not. They agree on a channel name exactly when it is a known name or no casing of one.
   */
  lemma ChannelAgreement(body: string, thread: seq<Message>, channel: string)
    requires NothingComposes(body)
    ensures ApexEvaluate(Some(body), Some(AutoReplyCount(thread)), channel) == Evaluate(body, thread, channel)
       <==> (channel == "sms" || (channel == "email" && CodesReadAlike(body)) ||
             (!SameIgnoringCase(channel, "sms") && !SameIgnoringCase(channel, "email")))
  {
    if channel == "sms" || channel == "email" {
      ChannelNames(channel);
      ImplementationsAgreeIff(body, thread, channel);
    }
  }

  /** "SMS" is such a channel: the port judges the message, the reference refuses it. */
  lemma UpperCaseChannelDisagrees(body: string, thread: seq<Message>)
    ensures Evaluate(body, thread, "SMS").Err?
    ensures ApexEvaluate(Some(body), Some(AutoReplyCount(thread)), "SMS").Ok?
  {
    assert MapText(ApexLower, "SMS") == "sms" && MapText(ApexLower, "sms") == "sms";
  }

  lemma ChoosingWithoutACount(optOut: Option<string>, legal: Option<string>, hostility: Option<string>,
                              bounce: Option<string>)
    ensures ApexChoose(optOut, legal, hostility, bounce, None) == ApexChoose(optOut, legal, hostility, bounce, Some(0))
  {
  }

  lemma MissingCountReadsAsZero(body: string, isEmail: bool)
    ensures ApexJudge(body, None, isEmail) == ApexJudge(body, Some(0), isEmail)
  {
    var folded := ApexFold(body);
    var canon := Canonicalize(folded);
    var tokens := ApexSplit(canon);
    ChoosingWithoutACount(ApexMatchOptOut(canon), MatchLegal(canon, tokens), MatchHostility(canon, tokens),
                          MatchBounceOrAutoreply(JavaWord, canon, folded, isEmail));
  }

  /** A missing body or count reads as an empty body or a fresh thread. */
  lemma NullsReadAsEmpty(body: Option<string>, channel: string)
    requires channel == "sms" || channel == "email"
    ensures ApexEvaluate(body, None, channel) == ApexEvaluate(Some(OrEmpty(body)), Some(AutoReplyCount([])), channel)
    ensures NothingComposes(OrEmpty(body)) ==>
            (ApexEvaluate(body, None, channel) == Evaluate(OrEmpty(body), [], channel) <==>
             channel == "sms" || CodesReadAlike(OrEmpty(body)))
  {
    ChannelNames(channel);
    MissingCountReadsAsZero(OrEmpty(body), channel == "email");
    if NothingComposes(OrEmpty(body)) {
      ImplementationsAgreeIff(OrEmpty(body), [], channel);
    }
  }
}
