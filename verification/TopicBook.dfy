/**
 * The topics of conversation read off the text: each is the message's exactly when its own sign is there
 * and no earlier topic's. A decline is never taken for interest.
 */
module TopicBook {
  import opened Common
  import opened Strings
  import opened TextFolding
  import opened Guardrails
  import opened RuleBook
  import opened Buckets

  // --- the text as the heuristic sees it -----------------------------------------------------

  /** The text without its white space. */
  function Solid(s: string): string {
    if s == [] then [] else (if White(s[0]) then [] else [s[0]]) + Solid(s[1..])
  }

  /** The same in lower case. */
  function SolidLower(s: string): string {
    if s == [] then [] else (if White(s[0]) then [] else [Lower(s[0])]) + SolidLower(s[1..])
  }

  /** Single spaces between words, no other white space, no capital letter. */
  predicate Collapsed(s: string) {
    && (forall i :: 0 <= i < |s| ==> !UpperLetter(s[i]) && (White(s[i]) ==> s[i] == ' '))
    && (forall i :: 0 <= i < |s| - 1 ==> s[i] != ' ' || s[i + 1] != ' ')
    && (s != [] ==> s[|s| - 1] != ' ')
  }

  lemma LoweredIsSolid(c: char)
    requires !White(c)
    ensures !White(Lower(c)) && !UpperLetter(Lower(c))
  {
  }

  lemma SolidCons(gap: string, c: char, rest: string)
    requires (gap == [] || gap == " ") && !White(c)
    ensures Solid(gap + [c] + rest) == [c] + Solid(rest)
  {
    var s := gap + [c] + rest;
    if gap == [] {
      assert s == [c] + rest && s[1..] == rest;
    } else {
      assert s[1..] == [c] + rest && s[1..][1..] == rest && s[0] == ' ';
      assert Solid(s) == [] + Solid(s[1..]);
    }
  }

  lemma CollapsedCons(gap: string, c: char, rest: string)
    requires (gap == [] || gap == " ") && !White(c) && !UpperLetter(c) && Collapsed(rest)
    ensures Collapsed(gap + [c] + rest)
  {
    var t, n := gap + [c] + rest, |gap| + 1;
    assert t[n - 1] == c;
    forall i | n <= i < |t| ensures t[i] == rest[i - n] {}
  }

  lemma {:induction false} CollapseIsCollapsed(s: string, pending: bool, started: bool)
    ensures Collapsed(CollapseSpace(s, pending, started))
    ensures CollapseSpace(s, pending, false) != [] ==> CollapseSpace(s, pending, false)[0] != ' '
  {
    if s == [] {
    } else if White(s[0]) {
      CollapseIsCollapsed(s[1..], true, started);
    } else {
      CollapseIsCollapsed(s[1..], false, true);
      LoweredIsSolid(s[0]);
      CollapsedCons(if pending && started then " " else [], Lower(s[0]), CollapseSpace(s[1..], false, true));
    }
  }

  /** What collapsing keeps: every character that is no white space, lower-cased, in order. */
  lemma {:induction false} CollapseKeeps(s: string, pending: bool, started: bool)
    ensures Solid(CollapseSpace(s, pending, started)) == SolidLower(s)
  {
    if s == [] {
    } else if White(s[0]) {
      CollapseKeeps(s[1..], true, started);
    } else {
      CollapseKeeps(s[1..], false, true);
      LoweredIsSolid(s[0]);
      var rest := CollapseSpace(s[1..], false, true);
      var gap := if pending && started then " " else [];
      assert CollapseSpace(s, pending, started) == gap + [Lower(s[0])] + rest;
      SolidCons(gap, Lower(s[0]), rest);
    }
  }

  predicate Mark(c: char) { c == '.' || c == '!' || c == ',' }

  /** Stripping takes the marks off the end, all of them and nothing else. */
  lemma {:induction false} StripMeaning(s: string)
    ensures StripTrailing(s) <= s && forall i :: |StripTrailing(s)| <= i < |s| ==> Mark(s[i])
    ensures var bare := StripTrailing(s); bare != [] ==> !Mark(bare[|bare| - 1])
  {
    if s == [] || s[|s| - 1] !in ['.', '!', ','] {
    } else {
      StripMeaning(s[..|s| - 1]);
    }
  }

  // --- amounts and addresses ------------------------------------------------------------------

  /** A figure: a digit, then digits, commas and points. */
  predicate Figure(s: string) {
    s != [] && Digit(s[0]) && forall i :: 0 <= i < |s| ==> Digit(s[i]) || s[i] == ',' || s[i] == '.'
  }

  predicate Currency(s: string) { s == "" || s == "$" || s == " " || s == "$ " }

  predicate Unit(s: string) { UnitName(s) || (s != [] && s[0] == ' ' && UnitName(s[1..])) }

  predicate UnitName(s: string) { s in ["", "k", "m", "mm", "mil", "million", "thousand", "grand"] }

  /** An optional dollar sign and space, a figure, an optional space and unit, and nothing else. */
  predicate Amount(s: string) { exists i, j | 0 <= i <= j <= |s| :: AmountAt(s, i, j) }

  predicate AmountAt(s: string, i: int, j: int) {
    0 <= i <= j <= |s| && Currency(s[..i]) && Figure(s[i..j]) && Unit(s[j..])
  }

  lemma UnitsAre(unit: string, gap: string)
    requires unit in AMOUNT_UNITS && gap in ["", " "]
    ensures Unit(gap + unit)
  {
    assert gap == [] ==> gap + unit == unit;
    assert gap == " " ==> (gap + unit)[1..] == unit;
  }

  lemma UnitIsOne(s: string) returns (gap: string, unit: string)
    requires Unit(s)
    ensures unit in AMOUNT_UNITS && gap in ["", " "] && s == gap + unit
  {
    if UnitName(s) {
      gap, unit := "", s;
    } else {
      gap, unit := " ", s[1..];
    }
  }

  function AfterSign(s: string): string { if s != [] && s[0] == '$' then s[1..] else s }

  function AfterSpace(s: string): string { if s != [] && s[0] == ' ' then s[1..] else s }

  lemma SignAndSpace(s: string) returns (i: nat)
    ensures i <= |s| && Currency(s[..i]) && s[i..] == AfterSpace(AfterSign(s))
  {
    var t := AfterSign(s);
    i := (if t == s then 0 else 1) + (if AfterSpace(t) == t then 0 else 1);
  }

  lemma SignAndSpaceIs(s: string, i: nat)
    requires i < |s| && Currency(s[..i]) && Digit(s[i])
    ensures s[i..] == AfterSpace(AfterSign(s))
  {
    if i == 0 {
    } else if i == 1 {
      assert s[..1][0] == s[0];
    } else {
      assert s[..2][0] == s[0] && s[..2][1] == s[1];
    }
  }

  lemma TailIsAmount(s: string, i: nat, u: string, tail: string)
    requires i <= |s| && s[i..] == u && Currency(s[..i]) && u != [] && Digit(u[0]) && HasTail(u, tail) && Unit(tail)
    ensures AmountAt(s, i, |s| - |tail|)
  {
    var j := |s| - |tail|;
    assert s[i..j] == u[..|u| - |tail|] && s[j..] == tail;
  }

  lemma AmountIsTail(s: string, i: nat, j: nat)
    requires AmountAt(s, i, j)
    ensures i < |s| && Digit(s[i]) && HasTail(s[i..], s[j..])
  {
    var u, tail := s[i..], s[j..];
    assert s[i] == s[i..j][0];
    assert u[|u| - |tail|..] == tail && u[..|u| - |tail|] == s[i..j];
  }

  /** The pattern's tail: an optional space and one of its units. */
  predicate PatternTail(u: string, unit: string, gap: string) {
    unit in AMOUNT_UNITS && gap in ["", " "] && HasTail(u, gap + unit)
  }

  lemma PatternMatches(s: string)
    ensures var u := AfterSpace(AfterSign(s));
            IsAmount(s) <==> u != [] && Digit(u[0]) && exists unit, gap :: PatternTail(u, unit, gap)
  {
    var u := AfterSpace(AfterSign(s));
    if IsAmount(s) {
      var unit, gap :| unit in AMOUNT_UNITS && gap in ["", " "] && HasTail(u, gap + unit);
      assert PatternTail(u, unit, gap);
    }
  }

  lemma AmountIsFound(s: string)
    requires IsAmount(s)
    ensures Amount(s)
  {
    PatternMatches(s);
    var u := AfterSpace(AfterSign(s));
    var unit, gap :| PatternTail(u, unit, gap);
    var i := SignAndSpace(s);
    UnitsAre(unit, gap);
    TailIsAmount(s, i, u, gap + unit);
  }

  lemma FoundIsAmount(s: string)
    requires Amount(s)
    ensures IsAmount(s)
  {
    var i, j :| 0 <= i <= j <= |s| && AmountAt(s, i, j);
    AmountIsTail(s, i, j);
    SignAndSpaceIs(s, i);
    var gap, unit := UnitIsOne(s[j..]);
    assert PatternTail(s[i..], unit, gap);
    PatternMatches(s);
  }

  /** The amount pattern takes exactly such texts. */
  lemma AmountMeaning(s: string)
    ensures IsAmount(s) <==> Amount(s)
  {
    if IsAmount(s) { AmountIsFound(s); }
    if Amount(s) { FoundIsAmount(s); }
  }

  predicate UserText(s: string) {
    s != [] && forall i :: 0 <= i < |s| ==> AsciiWord(s[i]) || s[i] == '.' || s[i] == '+' || s[i] == '-'
  }

  predicate HostText(s: string) { s != [] && forall i :: 0 <= i < |s| ==> AsciiWord(s[i]) || s[i] == '-' }

  predicate TailText(s: string) { s != [] && forall i :: 0 <= i < |s| ==> AsciiWord(s[i]) || s[i] == '.' }

  /** An address: user, '@', host, a point and what follows, from `a` to `e`. */
  predicate AddressAt(s: string, a: int, at: int, dot: int, e: int) {
    && 0 <= a <= at < dot < e <= |s| && s[at] == '@' && s[dot] == '.'
    && UserText(s[a..at]) && HostText(s[at + 1..dot]) && TailText(s[dot + 1..e])
  }

  lemma AddressIsFound(s: string)
    requires HasEmail(s)
    ensures exists a, at, dot, e :: AddressAt(s, a, at, dot, e)
  {
    var at, dot :| 0 < at < |s| && at + 1 < dot < |s| - 1 && EmailAround(s, at, dot);
    assert s[at - 1..at] == [s[at - 1]] && s[dot + 1..dot + 2] == [s[dot + 1]];
    assert AddressAt(s, at - 1, at, dot, dot + 2);
  }

  lemma FoundIsEmail(s: string, a: int, at: int, dot: int, e: int)
    requires AddressAt(s, a, at, dot, e)
    ensures HasEmail(s)
  {
    assert s[at - 1] == s[a..at][at - 1 - a] && s[dot + 1] == s[dot + 1..e][0];
    forall i | at < i < dot ensures AsciiWord(s[i]) || s[i] == '-' { assert s[i] == s[at + 1..dot][i - at - 1]; }
    assert EmailAround(s, at, dot);
  }

  /** The address pattern finds something exactly where an address stands somewhere in the body. */
  lemma EmailMeaning(s: string)
    ensures HasEmail(s) <==> exists a, at, dot, e :: AddressAt(s, a, at, dot, e)
  {
    if HasEmail(s) { AddressIsFound(s); }
    if a, at, dot, e :| AddressAt(s, a, at, dot, e) { FoundIsEmail(s, a, at, dot, e); }
  }

  // --- the signs --------------------------------------------------------------------------------

  predicate Asks(text: string) { text != [] && text[|text| - 1] == '?' }

  predicate WantsInformation(text: string, body: string) { HasEmail(body) || HasAnyPhrase(text, REQUEST_INFO_KEYWORDS) }

  predicate ReportsProgress(bare: string) { bare in PROCESS_WORDS || "just sent" <= bare }

  /** A decline: a short one as the whole text, or one of three phrases anywhere. */
  predicate Declines(text: string, bare: string) {
    || bare in ["no", "nope", "no thanks", "no thank you", "we're good", "were good", "im good", "i'm good",
                "all set", "not now", "not yet", "pass"]
    || OccursIn("not interested", text) || OccursIn("already funded", text) || OccursIn("we have funding", text)
  }

  /** A topic and what must be in the text for it, everything earlier being absent. */
  predicate Fits(topic: Intent, amount: bool, yes: bool, asks: bool, info: bool, call: bool, progress: bool,
                 declines: bool, interested: bool, wrong: bool)
  {
    match topic
    case AmountGiven => amount
    case Interested =>
      !amount && (yes || (!asks && !info && !call && !progress && !declines && interested))
    case Question => !amount && !yes && asks
    case RequestMoreInfo => !amount && !yes && !asks && info
    case CallRequest => !amount && !yes && !asks && !info && call
    case ProcessUpdate => !amount && !yes && !asks && !info && !call && progress
    case NotInterested => !amount && !yes && !asks && !info && !call && !progress && declines
    case WrongPerson =>
      !amount && !yes && !asks && !info && !call && !progress && !declines && !interested && wrong
    case Unclear =>
      !amount && !yes && !asks && !info && !call && !progress && !declines && !interested && !wrong
    case _ => false
  }

  predicate TopicFits(topic: Intent, body: string) {
    var text := CollapseSpace(body, false, false);
    var bare := StripTrailing(text);
    Fits(topic, IsAmount(bare), bare in AFFIRMATIVES, Asks(text), WantsInformation(text, body),
         HasAnyPhrase(text, CALL_KEYWORDS), ReportsProgress(bare), Declines(text, bare),
         OccursIn("interested", text), HasAnyPhrase(text, WRONG_KEYWORDS))
  }

  lemma DeclinesAreListed(bare: string)
    ensures bare in DECLINES <==>
            bare in ["no", "nope", "no thanks", "no thank you", "we're good", "were good", "im good", "i'm good",
                     "all set", "not now", "not yet", "pass"]
  {
  }

  /** A message no rule but the loop breaker took has the topic whose signs it shows, and no other. */
  lemma TopicIsWhatFits(body: string, rule: Option<Rule>, topic: Intent)
    requires rule == None || rule == Some(LoopBreaker)
    ensures TopicFits(topic, body) <==> topic == BucketIntent(body, rule)
  {
    var text := CollapseSpace(body, false, false);
    PhraseFound(REQUEST_INFO_KEYWORDS, text);
    PhraseFound(CALL_KEYWORDS, text);
    PhraseFound(WRONG_KEYWORDS, text);
    DeclinesAreListed(StripTrailing(text));
  }

  /** A message a rule took carries the intent of that rule, whatever its text. */
  lemma RulesNameTheirIntents(body: string)
    ensures BucketIntent(body, Some(OptOut)) == OptOutIntent
    ensures BucketIntent(body, Some(LegalEscalation)) == LegalEscalationIntent
    ensures BucketIntent(body, Some(Hostility)) == HostileIntent
    ensures BucketIntent(body, Some(BounceOrAutoreply)) == AutoReplyIntent
  {
  }

  // --- a decline is never interest -----------------------------------------------------------------

  lemma PhraseOutlastsMarks(text: string, phrase: string)
    requires OccursIn(phrase, text) && phrase != [] && !Mark(phrase[|phrase| - 1])
    ensures |StripTrailing(text)| >= |phrase|
  {
    StripMeaning(text);
    var i :| 0 <= i <= |text| - |phrase| && OccursAt(phrase, text, i);
    var last := i + |phrase| - 1;
    assert text[last] == text[i..i + |phrase|][|phrase| - 1] == phrase[|phrase| - 1];
    assert last < |StripTrailing(text)|;
  }

  lemma AffirmativesAreShort(bare: string)
    requires bare in AFFIRMATIVES
    ensures |bare| <= 11
  {
  }

  /** Whatever else a message says: with "not interested" in it, it never counts as interest. */
  lemma NotInterestedIsNoInterest(body: string, rule: Option<Rule>)
    requires OccursIn("not interested", CollapseSpace(body, false, false))
    ensures BucketIntent(body, rule) != Interested
  {
    var text := CollapseSpace(body, false, false);
    PhraseOutlastsMarks(text, "not interested");
    if StripTrailing(text) in AFFIRMATIVES {
      AffirmativesAreShort(StripTrailing(text));
    } else if rule == None || rule == Some(LoopBreaker) {
      TopicIsWhatFits(body, rule, Interested);
    }
  }
}
