/** The guardrail rules table of guardrails/rules.py as a pure function. */
module Guardrails {
  import opened Common
  import opened Strings
  import opened TextFolding
  import opened EditDistance

  datatype Action = SuppressAndStop | HumanReview | Proceed

  datatype Rule = OptOut | LegalEscalation | Hostility | BounceOrAutoreply | LoopBreaker

  datatype Verdict = Verdict(action: Action, rule: Option<Rule>, trigger: Option<string>)

  datatype Direction = Inbound | Outbound

  datatype Message = Message(body: string, direction: Direction, isAutoReply: bool)

  datatype Failure = UnknownChannel(channel: string)

  const OPT_OUT_KEYWORDS: seq<string> := [
    "stop", "stopall", "unsubscribe", "cancel", "end", "quit", "revoke", "optout", "opt out", "remove me"
  ]

  const MIN_FUZZY_LENGTH := 4

  /** The literal openings the stop imperative accepts, the polite ones tried first. */
  const STOP_IMPERATIVES: seq<string> := [
    "please stop texting", "please stop sending", "please stop messaging",
    "please stop contacting", "please stop emailing", "please stop calling",
    "stop texting", "stop sending", "stop messaging", "stop contacting", "stop emailing", "stop calling"
  ]

  const LEGAL_PREFIXES: seq<string> := ["attorney", "lawyer", "lawsuit", "tcpa", "fcc", "complaint", "harass"]
  const LEGAL_TOKENS: seq<string> := ["sue", "sues", "sued", "suing"]
  const LEGAL_PHRASES: seq<string> := ["report you"]

  const HOSTILITY_WORDS: seq<string> := ["fuck", "fucking", "shit", "bullshit", "asshole", "bitch"]
  const HOSTILITY_PHRASES: seq<string> := ["screw you", "piss off", "go to hell", "leave me alone"]

  const AUTOREPLY_MARKERS: seq<string> := [
    "out of office", "out of the office", "automatic reply", "auto reply", "autoreply",
    "auto submitted", "auto generated", "on vacation", "away from the office"
  ]
  const BOUNCE_PHRASES: seq<string> := [
    "delivery status notification", "undeliverable", "could not be delivered",
    "mail delivery failed", "mailbox unavailable"
  ]

  // --- searches ------------------------------------------------------------------

  function FirstPhraseIn(phrases: seq<string>, text: string): Option<string> {
    if phrases == [] then None
    else if OccursIn(phrases[0], text) then Some(phrases[0])
    else FirstPhraseIn(phrases[1..], text)
  }

  function FirstPrefixOf(prefixes: seq<string>, token: string): Option<string> {
    if prefixes == [] then None
    else if prefixes[0] <= token then Some(prefixes[0])
    else FirstPrefixOf(prefixes[1..], token)
  }

  /** Python's whitespace split of a text whose only whitespace is the space. */
  function Words(s: string, current: string): seq<string> {
    if s == [] then (if current == [] then [] else [current])
    else if s[0] == ' ' then (if current == [] then [] else [current]) + Words(s[1..], [])
    else Words(s[1..], current + [s[0]])
  }

  /** Which positions of a text a regular expression's `\b` takes for part of a word. */
  type WordTest = (string, int) -> bool

  /** The reference's: wherever `\w` matches. */
  predicate PythonWord(s: string, i: int) { 0 <= i < |s| && WordCharacter(s[i]) }

  /** `\b` between positions `i - 1` and `i`. */
  predicate Boundary(word: WordTest, s: string, i: int) { word(s, i - 1) != word(s, i) }

  // --- opt-out ----------------------------------------------------------------------

  predicate FuzzyWholeMatch(text: string, keyword: string) {
    text == keyword || (|keyword| >= MIN_FUZZY_LENGTH && WithinEditDistance1(text, keyword))
  }

  predicate KeywordMatches(canon: string, keyword: string) {
    FuzzyWholeMatch(canon, keyword) || FuzzyWholeMatch(Despace(canon), Despace(keyword))
  }

  function FirstKeyword(canon: string, keywords: seq<string>): Option<string> {
    if keywords == [] then None
    else if KeywordMatches(canon, keywords[0]) then Some(keywords[0])
    else FirstKeyword(canon, keywords[1..])
  }

  function FirstImperative(word: WordTest, canon: string, openings: seq<string>): Option<string> {
    if openings == [] then None
    else if openings[0] <= canon && Boundary(word, canon, |openings[0]|) then Some(openings[0])
    else FirstImperative(word, canon, openings[1..])
  }

  function StopImperative(canon: string): Option<string> { FirstImperative(PythonWord, canon, STOP_IMPERATIVES) }

  function MatchOptOut(canon: string): Option<string> {
    var keyword := FirstKeyword(canon, OPT_OUT_KEYWORDS);
    if keyword.Some? then keyword else StopImperative(canon)
  }

  // --- legal, hostility, bounce ---------------------------------------------------------

  function FirstLegalToken(tokens: seq<string>): Option<string> {
    if tokens == [] then None
    else if tokens[0] in LEGAL_TOKENS then Some(tokens[0])
    else if FirstPrefixOf(LEGAL_PREFIXES, tokens[0]).Some? then FirstPrefixOf(LEGAL_PREFIXES, tokens[0])
    else FirstLegalToken(tokens[1..])
  }

  function MatchLegal(canon: string, tokens: seq<string>): Option<string> {
    var phrase := FirstPhraseIn(LEGAL_PHRASES, canon);
    if phrase.Some? then phrase else FirstLegalToken(tokens)
  }

  function FirstHostileWord(tokens: seq<string>): Option<string> {
    if tokens == [] then None
    else if tokens[0] in HOSTILITY_WORDS then Some(tokens[0])
    else FirstHostileWord(tokens[1..])
  }

  function MatchHostility(canon: string, tokens: seq<string>): Option<string> {
    var phrase := FirstPhraseIn(HOSTILITY_PHRASES, canon);
    if phrase.Some? then phrase else FirstHostileWord(tokens)
  }

  /** The length of the run of digits at `i`, looking at most `most` characters ahead. */
  function DigitRun(s: string, i: nat, most: nat): (n: nat)
    requires i <= |s|
    ensures n <= most && i + n <= |s|
    decreases most
  {
    if most == 0 || i == |s| || !Digit(s[i]) then 0 else 1 + DigitRun(s, i + 1, most - 1)
  }

  /** The two kinds of code a bounce message carries. */
  datatype Code = Dsn | Smtp

  /** `\b5\.\d\.\d{1,3}\b` anchored at `i`: a longer run of digits leaves no boundary to stop at. */
  function DsnCodeAt(word: WordTest, s: string, i: nat): Option<string>
    requires i <= |s|
  {
    if i + 4 < |s| && Boundary(word, s, i) && s[i] == '5' && s[i + 1] == '.' && Digit(s[i + 2]) && s[i + 3] == '.' then
      var n := DigitRun(s, i + 4, 3);
      if n > 0 && Boundary(word, s, i + 4 + n) then Some(s[i..i + 4 + n]) else None
    else None
  }

  /** `\b55[0-4]\b` anchored at `i`. */
  function SmtpCodeAt(word: WordTest, s: string, i: nat): Option<string>
    requires i <= |s|
  {
    if i + 3 <= |s| && Boundary(word, s, i) && s[i] == '5' && s[i + 1] == '5' && '0' <= s[i + 2] <= '4'
       && Boundary(word, s, i + 3)
    then Some(s[i..i + 3]) else None
  }

  function CodeAt(word: WordTest, code: Code, s: string, i: nat): Option<string>
    requires i <= |s|
  {
    match code
    case Dsn => DsnCodeAt(word, s, i)
    case Smtp => SmtpCodeAt(word, s, i)
  }

  function Search(word: WordTest, code: Code, s: string, i: nat): Option<string>
    requires i <= |s|
    decreases |s| - i
  {
    if CodeAt(word, code, s, i).Some? then CodeAt(word, code, s, i)
    else if i == |s| then None
    else Search(word, code, s, i + 1)
  }

  function FirstCode(word: WordTest, s: string): Option<string> {
    var dsn := Search(word, Dsn, s, 0);
    if dsn.Some? then dsn else Search(word, Smtp, s, 0)
  }

  function MatchBounceOrAutoreply(word: WordTest, canon: string, folded: string, isEmail: bool): Option<string> {
    var marker := FirstPhraseIn(AUTOREPLY_MARKERS, canon);
    if marker.Some? then marker
    else if !isEmail then None
    else
      var phrase := FirstPhraseIn(BOUNCE_PHRASES, canon);
      if phrase.Some? then phrase else FirstCode(word, folded)
  }

  function AutoReplyCount(thread: seq<Message>): nat {
    if thread == [] then 0
    else (if thread[0].direction == Outbound && thread[0].isAutoReply then 1 else 0) + AutoReplyCount(thread[1..])
  }

  // --- the table -------------------------------------------------------------------------

  /** The rules in their fixed order, over what each matcher found. */
  function FirstRule(optOut: Option<string>, legal: Option<string>, hostility: Option<string>,
                     bounce: Option<string>, looping: bool): Verdict
  {
    if optOut.Some? then Verdict(SuppressAndStop, Some(OptOut), optOut)
    else if legal.Some? then Verdict(HumanReview, Some(LegalEscalation), legal)
    else if hostility.Some? then Verdict(HumanReview, Some(Hostility), hostility)
    else if bounce.Some? then Verdict(HumanReview, Some(BounceOrAutoreply), bounce)
    else if looping then Verdict(HumanReview, Some(LoopBreaker), Some("2 auto-replies in thread"))
    else Verdict(Proceed, None, None)
  }

  function Judge(body: string, looping: bool, isEmail: bool): Verdict {
    var folded := Fold(body);
    var canon := Canonicalize(folded);
    var tokens := Words(canon, []);
    FirstRule(MatchOptOut(canon), MatchLegal(canon, tokens), MatchHostility(canon, tokens),
              MatchBounceOrAutoreply(PythonWord, canon, folded, isEmail), looping)
  }

  function Evaluate(body: string, thread: seq<Message>, channel: string): Result<Verdict, Failure> {
    if channel != "sms" && channel != "email" then Err(UnknownChannel(channel))
    else Ok(Judge(body, AutoReplyCount(thread) >= 2, channel == "email"))
  }

  // --- what an opt-out is --------------------------------------------------------------

  predicate Suppresses(body: string, thread: seq<Message>, channel: string) {
    Evaluate(body, thread, channel).Ok? && Evaluate(body, thread, channel).value.action == SuppressAndStop
  }

  /** Carrier semantics: exactly the keyword if it is short, else one edit away at most. */
  predicate Near(text: string, keyword: string) {
    if |keyword| < 4 then text == keyword else Levenshtein(text, keyword) <= 1
  }

  lemma FuzzyIsNear(text: string, keyword: string)
    ensures FuzzyWholeMatch(text, keyword) <==> Near(text, keyword)
  {
    WithinIsLevenshtein(text, keyword);
    DistanceZeroIsEquality(text, keyword);
  }

  /** Some keyword lies near the canonical form, or its letters near the body's letters. */
  predicate NearSomeKeyword(canon: string, letters: string, keywords: seq<string>) {
    exists i :: 0 <= i < |keywords| && (Near(canon, keywords[i]) || Near(letters, Despace(keywords[i])))
  }

  lemma {:induction false} FirstKeywordFound(canon: string, keywords: seq<string>)
    ensures FirstKeyword(canon, keywords).Some? <==> NearSomeKeyword(canon, Despace(canon), keywords)
  {
    if keywords == [] {
    } else {
      FuzzyIsNear(canon, keywords[0]);
      FuzzyIsNear(Despace(canon), Despace(keywords[0]));
      FirstKeywordFound(canon, keywords[1..]);
      assert keywords == [keywords[0]] + keywords[1..];
    }
  }

  // --- the stop imperative -------------------------------------------------------------

  const CONTACT_VERBS: seq<string> := ["texting", "sending", "messaging", "contacting", "emailing", "calling"]

  /** The text is the opening, or goes on after a space. */
  predicate Opens(canon: string, opening: string) { canon == opening || opening + " " <= canon }

  /** "stop" and a contact verb, perhaps after "please", then nothing or a new word. */
  predicate OpensWithImperative(canon: string) {
    exists i | 0 <= i < |CONTACT_VERBS| ::
      Opens(canon, "stop " + CONTACT_VERBS[i]) || Opens(canon, "please stop " + CONTACT_VERBS[i])
  }

  lemma {:induction false} ImperativeFound(canon: string, openings: seq<string>)
    ensures FirstImperative(PythonWord, canon, openings).Some? <==>
            exists k | 0 <= k < |openings| :: openings[k] <= canon && Boundary(PythonWord, canon, |openings[k]|)
  {
    if openings == [] {
    } else {
      ImperativeFound(canon, openings[1..]);
      assert openings == [openings[0]] + openings[1..];
    }
  }

  /** In canonical text a word ends at the end or at a space. */
  lemma BoundaryIsNewWord(canon: string, opening: string)
    requires Canonical(canon) && opening != [] && LowerLetter(opening[|opening| - 1])
    ensures (opening <= canon && Boundary(PythonWord, canon, |opening|)) <==> Opens(canon, opening)
  {
    var n := |opening|;
    if opening <= canon {
      assert canon[n - 1] == opening[n - 1] && PythonWord(canon, n - 1);
      if n < |canon| {
        assert Alphanumeric(canon[n]) || canon[n] == ' ';
        assert opening + " " <= canon <==> canon[n] == ' ';
      }
    }
  }

  lemma OpeningsAre(i: nat)
    requires i < 6
    ensures STOP_IMPERATIVES[i] == "please stop " + CONTACT_VERBS[i]
    ensures STOP_IMPERATIVES[6 + i] == "stop " + CONTACT_VERBS[i]
    ensures CONTACT_VERBS[i] != [] && CONTACT_VERBS[i][|CONTACT_VERBS[i]| - 1] == 'g'
  {
  }

  lemma OpeningRead(canon: string, k: nat)
    requires Canonical(canon) && k < |STOP_IMPERATIVES|
    ensures (STOP_IMPERATIVES[k] <= canon && Boundary(PythonWord, canon, |STOP_IMPERATIVES[k]|)) <==>
            Opens(canon, STOP_IMPERATIVES[k])
  {
    OpeningsAre(if k < 6 then k else k - 6);
    BoundaryIsNewWord(canon, STOP_IMPERATIVES[k]);
  }

  lemma ImperativeIsRead(canon: string)
    requires Canonical(canon) && StopImperative(canon).Some?
    ensures OpensWithImperative(canon)
  {
    ImperativeFound(canon, STOP_IMPERATIVES);
    var k :| 0 <= k < |STOP_IMPERATIVES| && STOP_IMPERATIVES[k] <= canon
             && Boundary(PythonWord, canon, |STOP_IMPERATIVES[k]|);
    OpeningRead(canon, k);
    OpeningsAre(if k < 6 then k else k - 6);
  }

  lemma OpeningIsFound(canon: string)
    requires Canonical(canon) && OpensWithImperative(canon)
    ensures StopImperative(canon).Some?
  {
    ImperativeFound(canon, STOP_IMPERATIVES);
    var i :| 0 <= i < |CONTACT_VERBS| &&
             (Opens(canon, "stop " + CONTACT_VERBS[i]) || Opens(canon, "please stop " + CONTACT_VERBS[i]));
    OpeningsAre(i);
    OpeningRead(canon, i);
    OpeningRead(canon, 6 + i);
  }

  /** What the imperative pattern finds in canonical text. */
  lemma ImperativeMeaning(canon: string)
    requires Canonical(canon)
    ensures StopImperative(canon).Some? <==> OpensWithImperative(canon)
  {
    if StopImperative(canon).Some? { ImperativeIsRead(canon); }
    if OpensWithImperative(canon) { OpeningIsFound(canon); }
  }

  /**
   * A body is suppressed exactly when its canonical form or its folded letters and digits lie
   * near a keyword, or it opens with the stop imperative; thread and channel play no part.
   */
  lemma OptOutCharacterized(body: string, thread: seq<Message>, channel: string)
    requires channel == "sms" || channel == "email"
    ensures Suppresses(body, thread, channel) <==>
            || OpensWithImperative(Canonicalize(Fold(body)))
            || NearSomeKeyword(Canonicalize(Fold(body)), AlphanumericsOf(Fold(body)), OPT_OUT_KEYWORDS)
  {
    CanonicalizeMeaning(Fold(body));
    FirstKeywordFound(Canonicalize(Fold(body)), OPT_OUT_KEYWORDS);
    ImperativeMeaning(Canonicalize(Fold(body)));
    JudgeSuppresses(body, AutoReplyCount(thread) >= 2, channel == "email");
  }

  lemma JudgeSuppresses(body: string, looping: bool, isEmail: bool)
    ensures Judge(body, looping, isEmail).action == SuppressAndStop <==>
            MatchOptOut(Canonicalize(Fold(body))).Some?
  {
  }

  lemma {:induction false} NothingToDespace(s: string)
    requires ' ' !in s
    ensures Despace(s) == s
  {
    if s == [] {
    } else {
      NothingToDespace(s[1..]);
    }
  }

  lemma {:induction false} DespaceJoined(a: string, b: string)
    requires ' ' !in a && ' ' !in b
    ensures Despace(a + " " + b) == a + b
  {
    if a == [] {
      assert (a + " " + b)[1..] == b && a + b == b;
      NothingToDespace(b);
    } else {
      assert (a + " " + b)[1..] == a[1..] + " " + b;
      DespaceJoined(a[1..], b);
      assert [a[0]] + (a[1..] + b) == a + b;
    }
  }

  lemma DespacedWord(i: nat)
    requires i < 8
    ensures Despace(OPT_OUT_KEYWORDS[i]) == OPT_OUT_KEYWORDS[i]
  {
    NothingToDespace(OPT_OUT_KEYWORDS[i]);
  }

  lemma DespacedPhrase()
    ensures OPT_OUT_KEYWORDS[8] == "opt out" && Despace("opt out") == "optout"
  {
    assert "opt out" == "opt" + " " + "out" && "opt" + "out" == "optout";
    DespaceJoined("opt", "out");
  }

  lemma DespacedRequest()
    ensures OPT_OUT_KEYWORDS[9] == "remove me" && Despace("remove me") == "removeme"
  {
    assert "remove me" == "remove" + " " + "me" && "remove" + "me" == "removeme";
    DespaceJoined("remove", "me");
  }

  /** The letters of the keywords, once each. */
  const KEYWORD_LETTERS: seq<string> :=
    ["stop", "stopall", "unsubscribe", "cancel", "end", "quit", "revoke", "optout", "removeme"]

  lemma KeywordOf(i: nat) returns (k: nat)
    requires i < |KEYWORD_LETTERS|
    ensures k < |OPT_OUT_KEYWORDS| && Despace(OPT_OUT_KEYWORDS[k]) == KEYWORD_LETTERS[i]
  {
    if i == 8 {
      DespacedRequest();
      return 9;
    }
    DespacedWord(i);
    return i;
  }

  /** However a keyword's letters are scattered among other characters, it still suppresses. */
  lemma ScatteredKeywordSuppresses(body: string, thread: seq<Message>, channel: string, i: nat)
    requires (channel == "sms" || channel == "email") && i < |KEYWORD_LETTERS|
    requires AlphanumericsOf(Fold(body)) == KEYWORD_LETTERS[i]
    ensures Suppresses(body, thread, channel)
  {
    var letters := KEYWORD_LETTERS[i];
    var k := KeywordOf(i);
    DistanceZeroIsEquality(letters, letters);
    assert Near(letters, Despace(OPT_OUT_KEYWORDS[k]));
    assert NearSomeKeyword(Canonicalize(Fold(body)), letters, OPT_OUT_KEYWORDS);
    OptOutCharacterized(body, thread, channel);
  }

  lemma TooLongForKeywords(canon: string, letters: string, keywords: seq<string>, longest: nat)
    requires forall i :: 0 <= i < |keywords| ==> |keywords[i]| <= longest
    requires |canon| > longest + 1 && |letters| > longest + 1
    ensures !NearSomeKeyword(canon, letters, keywords)
  {
    forall i | 0 <= i < |keywords|
      ensures !Near(canon, keywords[i]) && !Near(letters, Despace(keywords[i]))
    {
      DespaceShortens(keywords[i]);
      DistanceBoundsLengths(canon, keywords[i]);
      DistanceBoundsLengths(letters, Despace(keywords[i]));
    }
  }

  /** Thirteen letters and digits are too many for any keyword: only the imperative is left. */
  lemma LongBodyNeedsTheImperative(body: string, thread: seq<Message>, channel: string)
    requires (channel == "sms" || channel == "email") && |AlphanumericsOf(Fold(body))| >= 13
    ensures Suppresses(body, thread, channel) <==> OpensWithImperative(Canonicalize(Fold(body)))
  {
    var canon, letters := Canonicalize(Fold(body)), AlphanumericsOf(Fold(body));
    CanonicalizeMeaning(Fold(body));
    DespaceShortens(canon);
    TooLongForKeywords(canon, letters, OPT_OUT_KEYWORDS, 11);
    OptOutCharacterized(body, thread, channel);
  }

  /** A zero-width character is invisible to every rule, unless it keeps a letter from its accent. */
  lemma ZeroWidthIsInvisible(before: string, c: char, after: string, thread: seq<Message>, channel: string)
    requires ZeroWidth(c) && OverAccentedAlphabet(before) && OverAccentedAlphabet(after)
    requires !Joins(before, after)
    ensures Evaluate(before + [c] + after, thread, channel) == Evaluate(before + after, thread, channel)
  {
    FoldSkipsZeroWidth(before, c, after);
  }
}
