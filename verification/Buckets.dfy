/** The deterministic intent heuristic (classifier/buckets.py): ordered first-match tests. */
module Buckets {
  import opened Common
  import opened Strings
  import opened TextFolding
  import opened Guardrails

  datatype Intent =
    | OptOutIntent | LegalEscalationIntent | HostileIntent | AutoReplyIntent
    | AmountGiven | Interested | Question | RequestMoreInfo | CallRequest | ProcessUpdate
    | NotInterested | WrongPerson | Unclear

  /** The intents the guardrails themselves produce are not topics of conversation. */
  predicate Conversational(i: Intent) {
    !i.OptOutIntent? && !i.LegalEscalationIntent? && !i.HostileIntent? && !i.AutoReplyIntent?
  }

  function GuardrailIntent(rule: Option<Rule>): Option<Intent> {
    match rule
    case Some(OptOut) => Some(OptOutIntent)
    case Some(LegalEscalation) => Some(LegalEscalationIntent)
    case Some(Hostility) => Some(HostileIntent)
    case Some(BounceOrAutoreply) => Some(AutoReplyIntent)
    case _ => None
  }

  const AFFIRMATIVES: seq<string> :=
    ["yes", "ok", "okay", "sure", "yep", "yeah", "yes please", "absolutely", "sounds good", "y"]
  const PROCESS_WORDS: seq<string> := ["sent", "done", "submitted", "uploaded", "sent it", "all sent"]
  const DECLINES: seq<string> :=
    ["no", "nope", "no thanks", "no thank you", "we're good", "were good", "im good", "i'm good",
     "all set", "not now", "not yet", "pass"]
  const AMOUNT_UNITS: seq<string> := ["", "k", "m", "mm", "mil", "million", "thousand", "grand"]
  const REQUEST_INFO_KEYWORDS: seq<string> :=
    ["email me", "send me", "send info", "more info", "website", "your email", "company profile", "send over"]
  const CALL_KEYWORDS: seq<string> :=
    ["call me", "give me a call", "please call", "can't get text", "cant get text", "can't receive text",
     "cant receive text"]
  const WRONG_KEYWORDS: seq<string> :=
    ["wrong number", "wrong person", "doesn't work here", "doesnt work here", "no longer with", "not my number"]

  function Lower(c: char): char { if UpperLetter(c) then (c as int + 32) as char else c }

  /** Whitespace runs become one space, none at the ends; ASCII letters lower-case. */
  function CollapseSpace(s: string, pending: bool, started: bool): string {
    if s == [] then []
    else if White(s[0]) then CollapseSpace(s[1..], true, started)
    else (if pending && started then [' '] else []) + [Lower(s[0])] + CollapseSpace(s[1..], false, true)
  }

  function StripTrailing(s: string): string {
    if s != [] && s[|s| - 1] in ['.', '!', ','] then StripTrailing(s[..|s| - 1]) else s
  }

  /** `\$?\s?\d[\d,.]*\s*(k|m|mm|mil|million|thousand|grand)?` against a whole collapsed text. */
  predicate IsAmount(s: string) {
    var t := if s != [] && s[0] == '$' then s[1..] else s;
    var u := if t != [] && t[0] == ' ' then t[1..] else t;
    u != [] && Digit(u[0]) &&
    exists unit <- AMOUNT_UNITS, gap <- ["", " "] :: HasTail(u, gap + unit)
  }

  predicate HasTail(u: string, tail: string) {
    |tail| <= |u| && u[|u| - |tail|..] == tail && AllAmount(u[..|u| - |tail|])
  }

  predicate AllAmount(s: string) {
    s != [] && forall i :: 0 <= i < |s| ==> Digit(s[i]) || s[i] == ',' || s[i] == '.'
  }

  predicate LocalCharacter(c: char) { AsciiWord(c) || c in ['.', '+', '-'] }

  /** `[\w.+-]+@[\w-]+\.[\w.]+` somewhere in the body. */
  predicate HasEmail(s: string) {
    exists at, dot | 0 < at < |s| && at + 1 < dot < |s| - 1 :: EmailAround(s, at, dot)
  }

  predicate EmailAround(s: string, at: int, dot: int)
    requires 0 < at && at + 1 < dot < |s| - 1
  {
    && s[at] == '@' && LocalCharacter(s[at - 1])
    && (forall i :: at < i < dot ==> AsciiWord(s[i]) || s[i] == '-')
    && s[dot] == '.' && (AsciiWord(s[dot + 1]) || s[dot + 1] == '.')
  }

  function BucketIntent(body: string, rule: Option<Rule>): Intent {
    var text := CollapseSpace(body, false, false);
    var bare := StripTrailing(text);
    if GuardrailIntent(rule).Some? then GuardrailIntent(rule).value
    else TopicOf(IsAmount(bare), bare, text, body)
  }

  /** The topics in their order of precedence. */
  function TopicOf(amount: bool, bare: string, text: string, body: string): (topic: Intent)
    ensures Conversational(topic)
  {
    if amount then AmountGiven
    else if bare in AFFIRMATIVES then Interested
    else if text != [] && text[|text| - 1] == '?' then Question
    else if HasEmail(body) then RequestMoreInfo
    else if FirstPhraseIn(REQUEST_INFO_KEYWORDS, text).Some? then RequestMoreInfo
    else if FirstPhraseIn(CALL_KEYWORDS, text).Some? then CallRequest
    else if bare in PROCESS_WORDS || "just sent" <= bare then ProcessUpdate
    else if bare in DECLINES || OccursIn("not interested", text) || OccursIn("already funded", text)
            || OccursIn("we have funding", text) then NotInterested
    else if OccursIn("interested", text) then Interested
    else if FirstPhraseIn(WRONG_KEYWORDS, text).Some? then WrongPerson
    else Unclear
  }

  /** A message is a topic of conversation exactly when no guardrail rule but the loop breaker fired. */
  lemma ConversationalIffNoGuardrail(body: string, rule: Option<Rule>)
    ensures Conversational(BucketIntent(body, rule)) <==> rule == None || rule == Some(LoopBreaker)
  {
  }
}
